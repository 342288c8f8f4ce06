/** The per-backend circuit breaker (internal/backend/backend.go:273-452): the immutable snapshot, what one
    pass through each retry loop decides, and the loops themselves on an atomic pointer that other
    goroutines keep storing to. */
module Circuit {
  datatype State = Closed | Open | HalfOpen

  datatype Snapshot = Snapshot(state: State, failures: nat, trial: bool, openedAt: int)

  /** What a nil pointer reads as. */
  const ZERO := Snapshot(Closed, 0, false, 0)

  /** An atomic pointer's value: id is the pointer (0 is nil), snap what it points to. */
  datatype Cell = Cell(id: nat, snap: Snapshot)

  datatype Tuning = Tuning(cooldown: int, threshold: int)

  datatype Transition = NoChange | Opened | Reopened | BackToClosed | HalfOpened

  /** The five retry loops. */
  datatype Op = Promote | Admit | Rearm | Succeed | Fail

  /** One pass: return without storing, or try to swap in next and return on success. */
  datatype Decision =
    | Return(flag: bool, transition: Transition)
    | Swap(next: Snapshot, flag: bool, transition: Transition)

  /** Whether a pass over s reads the clock: the age of an open circuit, or the opened-at stamp. */
  predicate ReadsClock(tuning: Tuning, op: Op, s: Snapshot) {
    match op
    case Promote => s.state == Open
    case Fail => s.state == HalfOpen || (s.state == Closed && s.failures + 1 >= tuning.threshold)
    case _ => false
  }

  /** flag is "this call promoted" for Promote and "admitted" for Admit. */
  function Decide(tuning: Tuning, op: Op, s: Snapshot, now: int): Decision {
    match op
    case Promote =>
      if s.state != Open || now - s.openedAt < tuning.cooldown then Return(false, NoChange)
      else Swap(Snapshot(HalfOpen, 0, false, 0), true, HalfOpened)
    case Admit =>
      (match s.state
       case Open => Return(false, NoChange)
       case HalfOpen => if s.trial then Return(false, NoChange) else Swap(s.(trial := true), true, NoChange)
       case Closed => Return(true, NoChange))
    case Rearm =>
      if s.state != HalfOpen || !s.trial then Return(false, NoChange) else Swap(s.(trial := false), false, NoChange)
    case Succeed =>
      if s.state == Open then Return(false, NoChange)
      else Swap(ZERO, false, if s.state == HalfOpen then BackToClosed else NoChange)
    case Fail =>
      (match s.state
       case Open => Return(false, NoChange)
       case HalfOpen => Swap(Snapshot(Open, 0, false, now), false, Reopened)
       case Closed =>
         if s.failures + 1 >= tuning.threshold then Swap(Snapshot(Open, 0, false, now), false, Opened)
         else Swap(s.(failures := s.failures + 1), false, NoChange))
  }

  /** The snapshot current after a decided pass over snap. */
  function After(snap: Snapshot, d: Decision): Snapshot {
    if d.Swap? then d.next else snap
  }

  function Last(s: seq<Snapshot>): Snapshot
    requires s != []
  {
    s[|s| - 1]
  }

  /** The snapshots current so far, after one atomic application of op at the end of stores. */
  function Applied(tuning: Tuning, op: Op, stores: seq<Snapshot>, now: int): seq<Snapshot>
    requires stores != []
  {
    var d := Decide(tuning, op, Last(stores), now);
    if d.Swap? then stores + [d.next] else stores
  }

  /** Rivals that land in two goes land in their order. */
  lemma Landing(rivals: seq<Snapshot>, first: nat, more: nat)
    requires first + more <= |rivals|
    ensures rivals[..first] + rivals[first..][..more] == rivals[..first + more]
    ensures rivals[first..][more..] == rivals[first + more..]
  {
  }

  /** An admission call among rivals' stores: a promotion after the first of them, an admission after the second. */
  predicate AllowedAmong(tuning: Tuning, before: seq<Snapshot>, between: seq<Snapshot>, at: int, after: seq<Snapshot>,
                         allowed: bool, t: Transition)
    requires before != []
  {
    && var promoted := Applied(tuning, Promote, before, at);
       var mid := promoted + between;
       && after == Applied(tuning, Admit, mid, at)
       && t == Decide(tuning, Promote, Last(before), at).transition
       && allowed == Decide(tuning, Admit, Last(mid), at).flag
  }

  /** A backend object, seen by one goroutine while others act on it.  rivals are the snapshots other goroutines
      will still win the right to store; any number of them may land just before a compare-and-swap of ours. */
  class Backend {
    const name: string
    var circuit: Cell
    var clock: int
    var rivals: seq<Snapshot>
    ghost var stores: seq<Snapshot>

    ghost predicate Valid()
      reads this
    {
      stores != [] && circuit == Cell(|stores| - 1, Last(stores))
    }

    constructor (name: string, rivals: seq<Snapshot>, now: int)
      ensures Valid() && this.name == name && stores == [ZERO] && this.rivals == rivals && clock == now
    {
      this.name := name;
      circuit, clock, this.rivals, stores := Cell(0, ZERO), now, rivals, [ZERO];
    }

    method Now() returns (now: int)
      requires Valid()
      modifies this`clock
      ensures old(clock) <= now == clock
    {
      var elapsed: nat :| true;
      clock := clock + elapsed;
      now := clock;
    }

    /** Any number of rivals store, in their order. */
    method Interfere() returns (ghost landed: nat)
      requires Valid()
      modifies this`circuit, this`rivals, this`stores
      ensures Valid() && landed <= |old(rivals)| && rivals == old(rivals)[landed..]
      ensures stores == old(stores) + old(rivals)[..landed]
    {
      landed := 0;
      var more: bool :| true;
      while more && rivals != []
        invariant Valid() && landed <= |old(rivals)| && rivals == old(rivals)[landed..]
        invariant stores == old(stores) + old(rivals)[..landed]
        decreases |rivals|
      {
        circuit := Cell(circuit.id + 1, rivals[0]);
        stores := stores + [rivals[0]];
        rivals, landed := rivals[1..], landed + 1;
        more :| true;
      }
    }

    /** landed rivals store first; the swap then succeeds only on the pointer that was loaded. */
    method CompareAndSwap(seen: Cell, next: Snapshot) returns (ok: bool, ghost landed: nat)
      requires Valid() && seen.id <= circuit.id
      modifies this`circuit, this`rivals, this`stores
      ensures Valid() && landed <= |old(rivals)| && rivals == old(rivals)[landed..]
      ensures ok <==> landed == 0 && seen.id == old(circuit.id)
      ensures stores == old(stores) + old(rivals)[..landed] + if ok then [next] else []
    {
      landed := Interfere();
      ok := circuit.id == seen.id;
      if ok {
        circuit := Cell(circuit.id + 1, next);
        stores := stores + [next];
      }
    }

    /** Load, read the clock if the snapshot calls for it, decide, and try to swap.  Rivals may store before the swap, which
        then fails. */
    method Attempt(tuning: Tuning, op: Op) returns (done: bool, d: Decision, cur: Snapshot, ghost landed: nat, ghost at: int)
      requires Valid()
      modifies this
      ensures Valid() && landed <= |old(rivals)| && rivals == old(rivals)[landed..] && old(clock) <= at <= clock
      ensures if done
              then landed == 0 && d == Decide(tuning, op, Last(old(stores)), at) && stores == Applied(tuning, op, old(stores), at)
                   && cur == Last(stores)
              else stores == old(stores) + old(rivals)[..landed] && landed > 0
    {
      var seen, now := circuit, clock;
      if ReadsClock(tuning, op, seen.snap) { now := Now(); }
      at, landed := now, 0;
      d := Decide(tuning, op, seen.snap, now);
      if d.Return? { return true, d, seen.snap, landed, at; }
      cur := d.next;
      done, landed := CompareAndSwap(seen, d.next);
    }

    /** One pass of a retry loop.  Rivals may store before the load and before the swap.  A pass that is not done lost its swap
        to at least one of them. */
    method Pass(tuning: Tuning, op: Op) returns (done: bool, d: Decision, cur: Snapshot, ghost landed: nat, ghost at: int)
      requires Valid()
      modifies this
      ensures Valid() && landed <= |old(rivals)| && rivals == old(rivals)[landed..]
      ensures old(clock) <= at <= clock
      ensures var before := old(stores) + old(rivals)[..landed];
              if done then d == Decide(tuning, op, Last(before), at) && stores == Applied(tuning, op, before, at)
              else stores == before && landed > 0
      ensures done ==> cur == Last(stores)
    {
      landed := Interfere();
      ghost var before := stores;
      ghost var more;
      done, d, cur, more, at := Attempt(tuning, op);
      Landing(old(rivals), landed, more);
      assert before + old(rivals)[landed..][..more] == old(stores) + old(rivals)[..landed + more];
      landed := landed + more;
    }

    /** A retry loop.  It returns because every failed swap uses up a rival.  Whatever the rivals do, the call is exactly one
        atomic application of op, after landed of their stores. */
    method Retry(tuning: Tuning, op: Op) returns (d: Decision, cur: Snapshot, ghost landed: nat, ghost at: int)
      requires Valid()
      modifies this
      ensures Valid() && landed <= |old(rivals)| && rivals == old(rivals)[landed..]
      ensures old(clock) <= at <= clock
      ensures var before := old(stores) + old(rivals)[..landed];
              d == Decide(tuning, op, Last(before), at) && stores == Applied(tuning, op, before, at)
      ensures cur == Last(stores)
    {
      landed := 0;
      while true
        invariant Valid() && landed <= |old(rivals)| && rivals == old(rivals)[landed..]
        invariant stores == old(stores) + old(rivals)[..landed]
        invariant old(clock) <= clock
        decreases |rivals|
      {
        ghost var before := stores;
        var done;
        ghost var more;
        done, d, cur, more, at := Pass(tuning, op);
        Landing(old(rivals), landed, more);
        assert before + old(rivals)[landed..][..more] == old(stores) + old(rivals)[..landed + more];
        landed := landed + more;
        if done { return; }
      }
    }

    /** Promotes an open circuit whose cooldown has elapsed; reports whether the circuit is open afterwards. */
    method CircuitOpen(tuning: Tuning) returns (open: bool, ghost landed: nat, ghost at: int)
      requires Valid()
      modifies this
      ensures Valid() && landed <= |old(rivals)| && rivals == old(rivals)[landed..] && old(clock) <= at <= clock
      ensures var before := old(stores) + old(rivals)[..landed];
              && stores == Applied(tuning, Promote, before, at)
              && open == (Last(stores).state == Open)
    {
      var d, cur;
      d, cur, landed, at := Retry(tuning, Promote);
      open := cur.state == Open;
    }

    /** The admission gate: one atomic promotion attempt, then one atomic admission attempt. */
    method CircuitAllow(tuning: Tuning) returns (allowed: bool, t: Transition, ghost first: nat, ghost second: nat, ghost at: int)
      requires Valid()
      modifies this
      ensures Valid() && first <= second <= |old(rivals)| && rivals == old(rivals)[second..] && old(clock) <= at <= clock
      ensures AllowedAmong(tuning, old(stores) + old(rivals)[..first], old(rivals)[first..second], at, stores, allowed, t)
    {
      var promotion, admission, cur;
      ghost var ignored;
      promotion, cur, first, at := Retry(tuning, Promote);
      admission, cur, second, ignored := Retry(tuning, Admit);
      second := first + second;
      allowed, t := admission.flag, promotion.transition;
    }

    method RearmTrial() returns (ghost landed: nat)
      requires Valid()
      modifies this
      ensures Valid() && landed <= |old(rivals)| && rivals == old(rivals)[landed..]
      ensures stores == Applied(Tuning(0, 0), Rearm, old(stores) + old(rivals)[..landed], 0)
    {
      var d, cur;
      ghost var at;
      d, cur, landed, at := Retry(Tuning(0, 0), Rearm);
    }

    method CircuitSuccess() returns (t: Transition, ghost landed: nat)
      requires Valid()
      modifies this
      ensures Valid() && landed <= |old(rivals)| && rivals == old(rivals)[landed..] && old(clock) <= clock
      ensures var before := old(stores) + old(rivals)[..landed];
              && stores == Applied(Tuning(0, 0), Succeed, before, 0)
              && t == Decide(Tuning(0, 0), Succeed, Last(before), 0).transition
    {
      var d, cur;
      ghost var at;
      d, cur, landed, at := Retry(Tuning(0, 0), Succeed);
      t := d.transition;
    }

    method CircuitFailure(threshold: int) returns (t: Transition, ghost landed: nat, ghost at: int)
      requires Valid()
      modifies this
      ensures Valid() && landed <= |old(rivals)| && rivals == old(rivals)[landed..] && old(clock) <= at <= clock
      ensures var before := old(stores) + old(rivals)[..landed];
              && stores == Applied(Tuning(0, threshold), Fail, before, at)
              && t == Decide(Tuning(0, threshold), Fail, Last(before), at).transition
    {
      var d, cur;
      d, cur, landed, at := Retry(Tuning(0, threshold), Fail);
      t := d.transition;
    }
  }
}
