/** One request through the proxy (internal/proxy/proxy.go:287-333, 368-446, 517-520): which breaker call each way of
    ending makes, what it does to the slot, and why no ending leaves a half-open trial taken. */
module Proxy {
  import opened Fleet
  import A = Accounting
  import opened CircuitRuns
  import Circuit

  /** Why selection failed. */
  datatype SelectError = NoHealthyBackends | OtherError

  /** How a dispatched round trip ends: headers arrived, or none could be proxied. */
  datatype Ending = Response(status: nat) | Failure(drainExpired: bool, clientGone: bool)

  /** What the breaker is told.  Observers hear nothing of a removed backend; a client that went away re-arms. */
  function Told(e: Ending, removed: bool): Option<Call> {
    match e
    case Response(status) => Observed(removed, status < 500)
    case Failure(drainExpired, clientGone) =>
      if drainExpired then Observed(removed, false) else if clientGone then Some(RearmCall) else Observed(removed, false)
  }

  function Observed(removed: bool, success: bool): Option<Call> {
    if removed then None else Some(if success then SuccessCall else FailureCall)
  }

  /** The status a client is answered, or would be if it were still there. */
  function StatusOf(e: Ending): nat {
    match e
    case Response(status) => status
    case Failure(drainExpired, clientGone) => if !drainExpired && clientGone then 499 else 502
  }

  /** The status of a failed round trip says what the breaker is told: 499 exactly when it is told to re-arm; for a live backend
      502 exactly when it is told a failure.  An expired drain is always 502, and a response keeps its own status. */
  lemma StatusTellsTheEnding(e: Ending, removed: bool)
    ensures e.Response? ==> StatusOf(e) == e.status
    ensures e.Failure? ==> (StatusOf(e) == 499 <==> Told(e, removed) == Some(RearmCall))
    ensures e.Failure? && !removed ==> (StatusOf(e) == 502 <==> Told(e, removed) == Some(FailureCall))
    ensures e.Failure? && (e.drainExpired || !e.clientGone) ==> StatusOf(e) == 502
    ensures e.Failure? && !e.drainExpired && e.clientGone ==> StatusOf(e) == 499
  {
  }

  method Observe(removed: bool, success: bool) returns (told: Option<Call>)
    ensures told == Observed(removed, success)
  {
    if removed { return None; }
    return Some(if success then SuccessCall else FailureCall);
  }

  /** The slot is left to the response body's Close. */
  method ModifyResponse(state: A.ReqState, status: nat, removed: bool) returns (told: Option<Call>)
    modifies state`status
    ensures state.status == status && told == Told(Response(status), removed)
  {
    state.status := status;
    told := Observe(removed, status < 500);
  }

  method ErrorHandler(state: A.ReqState, drainExpired: bool, clientGone: bool, removed: bool) returns (told: Option<Call>)
    modifies state, state.counters
    ensures told == Told(Failure(drainExpired, clientGone), removed)
    ensures state.status == if clientGone && !drainExpired then 499 else 502
    ensures state.once
    ensures state.counters.active ==
              if old(state.once) then old(state.counters.active) else A.Bump(old(state.counters.active), state.backend, -1)
    ensures state.counters.gauge ==
              if old(state.once) then old(state.counters.gauge) else A.Bump(old(state.counters.gauge), state.backend.name, -1)
  {
    if drainExpired {
      state.status := 502;
      told := Observe(removed, false);
    } else if clientGone {
      state.status := 499;
      told := Some(RearmCall);
    } else {
      state.status := 502;
      told := Observe(removed, false);
    }
    state.Release();
  }

  /** Body Close and errorHandler may each run again afterwards, in any mix: every one of them only calls Release. */
  method ReleaseAgain(state: A.ReqState, calls: nat)
    modifies state`once, state.counters
    ensures state.once == (old(state.once) || calls > 0)
    ensures state.counters.active ==
              if calls == 0 || old(state.once) then old(state.counters.active)
              else A.Bump(old(state.counters.active), state.backend, -1)
    ensures state.counters.gauge ==
              if calls == 0 || old(state.once) then old(state.counters.gauge)
              else A.Bump(old(state.counters.gauge), state.backend.name, -1)
  {
    for i := 0 to calls
      invariant state.once == (old(state.once) || i > 0)
      invariant state.counters.active ==
                  if i == 0 || old(state.once) then old(state.counters.active)
                  else A.Bump(old(state.counters.active), state.backend, -1)
      invariant state.counters.gauge ==
                  if i == 0 || old(state.once) then old(state.counters.gauge)
                  else A.Bump(old(state.counters.gauge), state.backend.name, -1)
    {
      state.Release();
    }
  }

  function Claimed<K(==)>(m: map<K, int>, k: K, ended: bool): map<K, int> {
    m[k := A.Reading(m, k) + if ended then 0 else 1]
  }

  /** A whole request.  A refused one touches neither counter; a dispatched one gives its slot back exactly once, at
      the error handler or at the first of its releases, however many follow; while its body is open it holds exactly
      one slot. */
  method ServeHTTP(selected: Result<Handle, SelectError>, allowed: bool, counters: A.Counters,
                   e: Ending, removed: bool, releases: nat)
    returns (status: nat, told: Option<Call>)
    modifies counters
    ensures selected.Err? || !allowed ==>
              && status == (if selected == Err(OtherError) then 502 else 503) && told == None
              && counters.active == old(counters.active) && counters.gauge == old(counters.gauge)
    ensures selected.Ok? && allowed ==> status == StatusOf(e)
    ensures selected.Ok? && allowed ==>
              && status == (match e case Response(answered) => answered
                                    case Failure(drainExpired, clientGone) => if clientGone && !drainExpired then 499 else 502)
              && told == Told(e, removed)
              && counters.active == Claimed(old(counters.active), selected.value, e.Failure? || releases > 0)
              && counters.gauge == Claimed(old(counters.gauge), selected.value.name, e.Failure? || releases > 0)
  {
    if selected.Err? { return if selected.error == NoHealthyBackends then 503 else 502, None; }
    if !allowed { return 503, None; }
    var state := new A.ReqState(selected.value, counters);
    state.Activate();
    if e.Response? {
      told := ModifyResponse(state, e.status, removed);
    } else {
      told := ErrorHandler(state, e.drainExpired, e.clientGone, removed);
    }
    status := state.status;
    ReleaseAgain(state, releases);
  }

  /** A drain expires only for a removed backend, so a failure is counted exactly for a live backend's 5xx or a round trip that
      broke while the client was still there, a success exactly for its other responses, and a client that left costs the
      backend nothing whether it is live or not. */
  lemma OnlyGenuineFailuresCount(e: Ending, removed: bool)
    requires e.Failure? && e.drainExpired ==> removed
    ensures Told(e, removed) == Some(FailureCall) <==>
              !removed && (if e.Response? then e.status >= 500 else !e.clientGone)
    ensures Told(e, removed) == Some(SuccessCall) <==> !removed && e.Response? && e.status < 500
    ensures e.Failure? && e.clientGone ==> Told(e, removed) == if e.drainExpired then None else Some(RearmCall)
  {
  }

  // ---------- no ending leaves the trial taken ----------

  function StepTimes(tuning: Circuit.Tuning, s: System, t: nat, n: nat): System {
    if n == 0 then s else Do(tuning, StepTimes(tuning, s, t, n - 1), Step(t))
  }

  /** Told nothing only of a removed backend; otherwise the call is one the wedge theorem permits. */
  lemma EndingsArePermitted(s: System, t: nat, e: Ending)
    requires t in s.threads && s.threads[t].stage == InFlight && s.threads[t].pc == Idle
    ensures var told := Told(e, s.removed);
            if told.Some? then Permitted(s, Invoke(t, told.value)) else s.removed && Permitted(s, Abandon(t))
  {
  }

  lemma CallFreesTrial(tuning: Circuit.Tuning, s: System, t: nat, call: Call)
    requires CircuitRuns.Inv(tuning, s) && t in s.threads && s.threads[t].pc == Idle
    requires call == RearmCall || call == SuccessCall || call == FailureCall
    ensures var s' := StepTimes(tuning, Do(tuning, s, Invoke(t, call)), t, 3);
            && t in s'.threads && s'.threads[t] == Thread(Idle, Finished)
            && !(s'.cell.snap.state == Circuit.HalfOpen && s'.cell.snap.trial)
  {
    var s0 := Do(tuning, s, Invoke(t, call));
    assert StepTimes(tuning, s0, t, 0) == s0;
    var s1 := StepTimes(tuning, s0, t, 1);
    assert s1 == StepThread(tuning, s0, t) && s1.cell == s.cell && s1.now == s.now;
    var s2 := StepTimes(tuning, s0, t, 2);
    assert s2 == StepThread(tuning, s1, t);
    var s3 := StepTimes(tuning, s0, t, 3);
    assert s3 == StepThread(tuning, s2, t);
    match call
    case RearmCall =>
    case SuccessCall =>
    case FailureCall =>
  }

  /** Whichever way a request of a live backend ends, three undisturbed steps of its breaker call later the call is
      over and the half-open trial, if there still is one, is free. */
  lemma EveryEndingFreesTrial(tuning: Circuit.Tuning, s: System, t: nat, e: Ending)
    requires CircuitRuns.Inv(tuning, s) && !s.removed
    requires t in s.threads && s.threads[t].stage == InFlight && s.threads[t].pc == Idle
    ensures var told := Told(e, false);
            var s' := StepTimes(tuning, Do(tuning, s, Invoke(t, told.value)), t, 3);
            && t in s'.threads && s'.threads[t] == Thread(Idle, Finished)
            && !(s'.cell.snap.state == Circuit.HalfOpen && s'.cell.snap.trial)
  {
    CallFreesTrial(tuning, s, t, Told(e, false).value);
  }
}
