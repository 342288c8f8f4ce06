/** The flags both health subsystems write: the health bit of each backend object and the gauge series of each name. */
module HealthBoard {
  import opened Fleet

  datatype Flags = Flags(healthy: set<Handle>, gauge: map<string, bool>)

  class Board {
    var healthy: set<Handle>
    var gauge: map<string, bool>

    function View(): Flags
      reads this
    {
      Flags(healthy, gauge)
    }

    constructor ()
      ensures View() == Flags({}, map[])
    {
      healthy, gauge := {}, map[];
    }

    /** The passive detector's ejection: the bit first, then the gauge. */
    method Eject(h: Handle)
      modifies this
      ensures View() == Flags(old(healthy) - {h}, old(gauge)[h.name := false])
    {
      healthy := healthy - {h};
      gauge := gauge[h.name := false];
    }
  }
}

/** Passive outlier detection (internal/health/outlier.go): a circular buffer of recent outcomes for each backend. */
module Outlier {
  import opened Fleet
  import opened HealthBoard

  const OUTLIER_WINDOW_SIZE: nat := 10
  const OUTLIER_FAILURES_BEFORE_EJECT: nat := 5

  // ---------- the sliding window ----------

  /** How many outcomes are failures. */
  function Failures(s: seq<bool>): nat {
    if s == [] then 0 else (if s[0] then 0 else 1) + Failures(s[1..])
  }

  /** The positions at which a sequence failed. */
  function FailedAt(s: seq<bool>): set<nat> {
    set i: nat | i < |s| && !s[i]
  }

  lemma {:induction false} FailuresAreFalse(s: seq<bool>)
    ensures Failures(s) == |FailedAt(s)|
  {
    if s != [] {
      var init, last := s[..|s| - 1], s[|s| - 1];
      assert s == init + [last];
      FailuresAreFalse(init);
      FailuresSnoc(init, last);
      assert FailedAt(s) == FailedAt(init) + if last then {} else {|init|};
    }
  }

  lemma FailuresCons(x: bool, rest: seq<bool>)
    ensures Failures([x] + rest) == (if x then 0 else 1) + Failures(rest)
  {
    assert ([x] + rest)[1..] == rest;
  }

  lemma {:induction false} FailuresSnoc(s: seq<bool>, x: bool)
    ensures Failures(s + [x]) == Failures(s) + (if x then 0 else 1)
  {
    if s == [] {
      assert s + [x] == [x] + [];
      FailuresCons(x, []);
    } else {
      var rest := s[1..];
      FailuresSnoc(rest, x);
      FailuresCons(s[0], rest + [x]);
      assert s + [x] == [s[0]] + (rest + [x]);
    }
  }

  /** The last n elements, or all of them if there are fewer. */
  function LastOf(s: seq<bool>, n: nat): seq<bool> {
    if |s| <= n then s else s[|s| - n..]
  }

  /** One more outcome, the oldest evicted once the window is full. */
  function Slide(s: seq<bool>, success: bool): seq<bool> {
    LastOf(s + [success], OUTLIER_WINDOW_SIZE)
  }

  lemma SlideFull(oldest: bool, rest: seq<bool>, success: bool)
    requires |rest| == OUTLIER_WINDOW_SIZE - 1
    ensures Slide([oldest] + rest, success) == rest + [success]
  {
    assert ([oldest] + rest + [success])[1..] == rest + [success];
  }

  lemma FullSlides(s: seq<bool>, success: bool)
    requires |s| == OUTLIER_WINDOW_SIZE
    ensures Slide(s, success) == s[1..] + [success]
  {
    assert (s + [success])[1..] == s[1..] + [success];
  }

  lemma FailuresHead(s: seq<bool>)
    requires s != []
    ensures Failures(s) == (if s[0] then 0 else 1) + Failures(s[1..])
  {
  }

  /** The incremental count: add the newcomer, subtract the evicted. */
  lemma SlideFailures(s: seq<bool>, success: bool)
    requires |s| <= OUTLIER_WINDOW_SIZE
    ensures Failures(Slide(s, success)) + (if |s| == OUTLIER_WINDOW_SIZE && !s[0] then 1 else 0)
         == Failures(s) + (if success then 0 else 1)
  {
    if |s| == OUTLIER_WINDOW_SIZE {
      FullSlides(s, success);
      FailuresHead(s);
      FailuresSnoc(s[1..], success);
    } else {
      FailuresSnoc(s, success);
    }
  }

  lemma HeldFailure(s: seq<bool>)
    ensures s != [] && !s[0] ==> Failures(s) > 0
  {
  }

  /** The contents of a circular buffer, oldest first. */
  function Unrolled(buffer: seq<bool>, next: nat, filled: nat): seq<bool>
    requires |buffer| == OUTLIER_WINDOW_SIZE && next < OUTLIER_WINDOW_SIZE && filled <= OUTLIER_WINDOW_SIZE
  {
    if filled < OUTLIER_WINDOW_SIZE then buffer[..filled] else buffer[next..] + buffer[..next]
  }

  /** While the buffer fills, storing at next appends. */
  lemma FillingAppends(buffer: seq<bool>, filled: nat, success: bool)
    requires |buffer| == OUTLIER_WINDOW_SIZE && filled < OUTLIER_WINDOW_SIZE
    ensures Unrolled(buffer[filled := success], (filled + 1) % OUTLIER_WINDOW_SIZE, filled + 1) == buffer[..filled] + [success]
  {
    var after := buffer[filled := success];
    assert after[..filled + 1] == buffer[..filled] + [success];
    if filled == OUTLIER_WINDOW_SIZE - 1 {
      assert after[..filled + 1] == after == after[0..] + after[..0];
    }
  }

  /** Once it is full, storing at next drops the oldest and appends. */
  lemma FullDropsOldest(buffer: seq<bool>, next: nat, success: bool)
    requires |buffer| == OUTLIER_WINDOW_SIZE && next < OUTLIER_WINDOW_SIZE
    ensures Unrolled(buffer, next, OUTLIER_WINDOW_SIZE) == [buffer[next]] + (buffer[next + 1..] + buffer[..next])
    ensures Unrolled(buffer[next := success], (next + 1) % OUTLIER_WINDOW_SIZE, OUTLIER_WINDOW_SIZE)
         == buffer[next + 1..] + buffer[..next] + [success]
  {
    var after := buffer[next := success];
    assert buffer[next..] == [buffer[next]] + buffer[next + 1..];
    assert after[next + 1..] == buffer[next + 1..] && after[..next + 1] == buffer[..next] + [success];
    if next == OUTLIER_WINDOW_SIZE - 1 {
      assert after[next + 1..] == [] && after[..next + 1] == after == after[0..] + after[..0];
    }
  }

  lemma UnrolledSlides(buffer: seq<bool>, next: nat, filled: nat, success: bool)
    requires |buffer| == OUTLIER_WINDOW_SIZE && next < OUTLIER_WINDOW_SIZE && filled <= OUTLIER_WINDOW_SIZE
    requires filled < OUTLIER_WINDOW_SIZE ==> next == filled
    ensures var filled' := if filled == OUTLIER_WINDOW_SIZE then filled else filled + 1;
            Unrolled(buffer[next := success], (next + 1) % OUTLIER_WINDOW_SIZE, filled') == Slide(Unrolled(buffer, next, filled), success)
    ensures filled == OUTLIER_WINDOW_SIZE ==> Unrolled(buffer, next, filled)[0] == buffer[next]
  {
    if filled < OUTLIER_WINDOW_SIZE {
      FillingAppends(buffer, filled, success);
    } else {
      FullDropsOldest(buffer, next, success);
      SlideFull(buffer[next], buffer[next + 1..] + buffer[..next], success);
    }
  }

  /** A circular buffer of outcomes, true for success.  Contents is what it stands for: the retained outcomes, oldest
      first. */
  class OutlierWindow {
    const outcomes: array<bool>
    var next: nat
    var filled: nat
    var failures: nat
    var ejected: bool
    ghost var Contents: seq<bool>

    ghost predicate Valid()
      reads this, outcomes
    {
      && outcomes.Length == OUTLIER_WINDOW_SIZE && next < OUTLIER_WINDOW_SIZE && filled <= OUTLIER_WINDOW_SIZE
      && (filled < OUTLIER_WINDOW_SIZE ==> next == filled)
      && Contents == Unrolled(outcomes[..], next, filled)
      && failures == Failures(Contents)
    }

    ghost function View(): Window
      reads this
    {
      Window(Contents, ejected)
    }

    ghost predicate Is(w: Window)
      reads this, outcomes
    {
      Valid() && View() == w
    }

    constructor ()
      ensures Valid() && fresh(outcomes) && View() == FRESH_WINDOW
    {
      outcomes := new bool[OUTLIER_WINDOW_SIZE];
      next, filled, failures, ejected, Contents := 0, 0, 0, false, [];
    }

    /** The outcome goes to the cursor, and the cursor advances round the buffer. */
    method Store(success: bool)
      requires outcomes.Length == OUTLIER_WINDOW_SIZE && next < OUTLIER_WINDOW_SIZE
      modifies this`next, outcomes
      ensures outcomes[..] == old(outcomes[..])[old(next) := success]
      ensures next == (old(next) + 1) % OUTLIER_WINDOW_SIZE
    {
      outcomes[next] := success;
      next := (next + 1) % OUTLIER_WINDOW_SIZE;
    }

    /** The counters' part: an evicted failure is uncounted, a new one counted. */
    method Count(success: bool)
      requires outcomes.Length == OUTLIER_WINDOW_SIZE && next < OUTLIER_WINDOW_SIZE && filled <= OUTLIER_WINDOW_SIZE
      requires filled == OUTLIER_WINDOW_SIZE && !outcomes[next] ==> failures > 0
      modifies this`filled, this`failures
      ensures filled == if old(filled) == OUTLIER_WINDOW_SIZE then old(filled) else old(filled) + 1
      ensures failures == old(failures) + (if success then 0 else 1)
                        - (if old(filled) == OUTLIER_WINDOW_SIZE && !outcomes[next] then 1 else 0)
    {
      if filled == OUTLIER_WINDOW_SIZE {
        if !outcomes[next] { failures := failures - 1; }
      } else {
        filled := filled + 1;
      }
      if !success { failures := failures + 1; }
    }

    method Observe(success: bool)
      requires Valid()
      modifies this`next, this`filled, this`failures, this`Contents, outcomes
      ensures Valid() && Contents == Slide(old(Contents), success)
    {
      UnrolledSlides(outcomes[..], next, filled, success);
      SlideFailures(Contents, success);
      HeldFailure(Contents);
      Count(success);
      Store(success);
      Contents := Slide(Contents, success);
    }

    method Reset()
      requires Valid()
      modifies this, outcomes
      ensures Valid() && View() == FRESH_WINDOW
    {
      for i := 0 to outcomes.Length {
        outcomes[i] := false;
      }
      next, filled, failures, ejected, Contents := 0, 0, 0, false, [];
    }

    /** The part of the detector's ObserveRoundTrip that touches this window; true means eject the backend now. */
    method Record(healthy: bool, success: bool) returns (eject: bool)
      requires Valid()
      modifies this, outcomes
      ensures Valid() && View() == Observed(old(View()), healthy, success) && eject == Ejects(old(View()), healthy, success)
    {
      if ejected && healthy { Reset(); }
      Observe(success);
      eject := !success && !ejected && failures >= OUTLIER_FAILURES_BEFORE_EJECT;
      if eject { ejected := true; }
    }
  }

  datatype Window = Window(outcomes: seq<bool>, ejected: bool)

  const FRESH_WINDOW := Window([], false)

  /** What an observation starts from: a clean window if an ejected backend reads healthy again. */
  function Episode(w: Window, healthy: bool): Window {
    if w.ejected && healthy then FRESH_WINDOW else w
  }

  predicate Ejects(w: Window, healthy: bool, success: bool) {
    var e := Episode(w, healthy);
    !success && !e.ejected && Failures(Slide(e.outcomes, success)) >= OUTLIER_FAILURES_BEFORE_EJECT
  }

  function Observed(w: Window, healthy: bool, success: bool): Window {
    var e := Episode(w, healthy);
    Window(Slide(e.outcomes, success), e.ejected || Ejects(w, healthy, success))
  }

  ghost predicate Owned(owner: map<object, Handle>, w: OutlierWindow, h: Handle) {
    w in owner && owner[w] == h && w.outcomes in owner && owner[w.outcomes] == h
  }

  class OutlierDetector {
    const board: Board
    var windows: map<Handle, OutlierWindow>
    /** What the windows stand for. */
    ghost var Outcomes: map<Handle, Window>
    /** Which backend each window and each buffer belongs to, so that no two backends share one. */
    ghost var Owner: map<object, Handle>

    ghost predicate Valid()
      reads this, Owner.Keys
    {
      && this !in Owner && board !in Owner && Outcomes.Keys <= windows.Keys
      && (forall h :: h in windows ==> Owned(Owner, windows[h], h))
      && (forall h :: h in windows ==> windows[h].Is(Remembered(Outcomes, h)))
    }

    constructor (board: Board)
      ensures Valid() && fresh(Owner.Keys) && this.board == board && Outcomes == map[]
    {
      this.board, windows, Owner, Outcomes := board, map[], map[], map[];
    }

    method Forget(h: Handle)
      requires Valid()
      modifies this`windows, this`Outcomes
      ensures Valid() && Outcomes == old(Outcomes) - {h}
    {
      windows := windows - {h};
      Outcomes := Outcomes - {h};
    }

    method Install(h: Handle, w: OutlierWindow)
      requires Valid() && h !in windows && w !in Owner && w.outcomes !in Owner && w.Is(FRESH_WINDOW)
      requires w as object != board && w.outcomes as object !in {this, board}
      modifies this`windows, this`Owner
      ensures Valid() && windows == old(windows)[h := w] && Owner.Keys == old(Owner.Keys) + {w, w.outcomes}
    {
      windows := windows[h := w];
      Owner := Owner[w := h][w.outcomes := h];
    }

    method WindowFor(h: Handle) returns (w: OutlierWindow)
      requires Valid()
      modifies this`windows, this`Owner
      ensures Valid() && fresh(Owner.Keys - old(Owner.Keys)) && h in windows && windows[h] == w
    {
      if h in windows { return windows[h]; }
      w := new OutlierWindow();
      Install(h, w);
    }

    /** Every window but h's stands for what Outcomes says, and h's for v. */
    ghost predicate Settles(h: Handle, v: Window)
      reads this, Owner.Keys
    {
      && this !in Owner && board !in Owner && Outcomes.Keys <= windows.Keys && h in windows
      && (forall g :: g in windows ==> Owned(Owner, windows[g], g))
      && (forall g :: g in windows && g != h ==> windows[g].Is(Remembered(Outcomes, g)))
      && windows[h].Is(v)
    }

    /** The window's own part: it changes as observed, and no other window does. */
    method Touch(h: Handle, healthy: bool, success: bool) returns (eject: bool)
      requires Valid() && h in windows
      modifies windows[h], windows[h].outcomes
      ensures unchanged(this) && eject == Ejects(Remembered(Outcomes, h), healthy, success)
      ensures Settles(h, Observed(Remembered(Outcomes, h), healthy, success))
    {
      var w := windows[h];
      assert w.Is(Remembered(Outcomes, h)) && Owned(Owner, w, h);
      assert forall g :: g in windows && g != h ==> Owned(Owner, windows[g], g) && windows[g].Is(Remembered(Outcomes, g));
      eject := w.Record(healthy, success);
      Undisturbed(h);
    }

    /** And Outcomes follows. */
    method RecordIn(h: Handle, healthy: bool, success: bool) returns (eject: bool)
      requires Valid() && h in windows
      modifies this`Outcomes, windows[h], windows[h].outcomes
      ensures Valid() && eject == Ejects(Remembered(old(Outcomes), h), healthy, success)
      ensures Outcomes == old(Outcomes)[h := Observed(Remembered(old(Outcomes), h), healthy, success)]
    {
      eject := Touch(h, healthy, success);
      Note(h, Observed(Remembered(Outcomes, h), healthy, success));
    }

    /** Windows nobody wrote to stand for what they stood for. */
    twostate lemma Undisturbed(h: Handle)
      requires unchanged(this)
      requires forall g :: g in windows && g != h ==> unchanged(windows[g]) && unchanged(windows[g].outcomes)
      requires forall g :: g in windows && g != h ==> old(windows[g].Is(Remembered(Outcomes, g)))
      ensures forall g :: g in windows && g != h ==> windows[g].Is(Remembered(Outcomes, g))
    {
    }

    ghost method Note(h: Handle, v: Window)
      requires Settles(h, v)
      modifies this`Outcomes
      ensures Valid() && Outcomes == old(Outcomes)[h := v]
    {
      Outcomes := Outcomes[h := v];
    }

    method Update(h: Handle, healthy: bool, success: bool) returns (eject: bool)
      requires Valid()
      modifies this, Owner.Keys
      ensures Valid() && fresh(Owner.Keys - old(Owner.Keys))
      ensures Outcomes == old(Outcomes)[h := Observed(Remembered(old(Outcomes), h), healthy, success)]
      ensures eject == Ejects(Remembered(old(Outcomes), h), healthy, success)
    {
      var w := WindowFor(h);
      assert Owned(Owner, w, h);
      eject := RecordIn(h, healthy, success);
    }

    method ObserveRoundTrip(h: Handle, success: bool)
      requires Valid()
      modifies this, Owner.Keys, board
      ensures Valid() && fresh(Owner.Keys - old(Owner.Keys))
      ensures Outcomes == old(Outcomes)[h := Observed(Remembered(old(Outcomes), h), h in old(board.healthy), success)]
      ensures if Ejects(Remembered(old(Outcomes), h), h in old(board.healthy), success)
              then board.View() == Flags(old(board.healthy) - {h}, old(board.gauge)[h.name := false])
              else board.View() == old(board.View())
    {
      var eject := Update(h, h in board.healthy, success);
      if eject { board.Eject(h); }
    }
  }

  /** The window a detector starts from for a backend it may not have seen. */
  function Remembered(outcomes: map<Handle, Window>, h: Handle): Window {
    if h in outcomes then outcomes[h] else FRESH_WINDOW
  }

  // ---------- what a window means over a run ----------

  /** One observation: what the health bit read, and how the round trip ended. */
  datatype Event = Event(healthy: bool, success: bool)

  function WindowAfter(events: seq<Event>): Window {
    if events == [] then FRESH_WINDOW
    else
      var last := events[|events| - 1];
      Observed(WindowAfter(events[..|events| - 1]), last.healthy, last.success)
  }

  predicate EjectsAt(events: seq<Event>, i: nat)
    requires i < |events|
  {
    Ejects(WindowAfter(events[..i]), events[i].healthy, events[i].success)
  }

  /** The reference: an episode that forgets nothing.  Its outcomes are all those since the last reset. */
  datatype Log = Log(outcomes: seq<bool>, ejected: bool)

  function Reopened(l: Log, healthy: bool): Log {
    if l.ejected && healthy then Log([], false) else l
  }

  predicate BurstEjects(l: Log, e: Event) {
    var open := Reopened(l, e.healthy);
    !e.success && !open.ejected && |FailedAt(LastOf(open.outcomes + [e.success], 10))| >= 5
  }

  function LogAfter(events: seq<Event>): Log {
    if events == [] then Log([], false)
    else
      var l := LogAfter(events[..|events| - 1]);
      var last := events[|events| - 1];
      Log(Reopened(l, last.healthy).outcomes + [last.success], Reopened(l, last.healthy).ejected || BurstEjects(l, last))
  }

  lemma LastOfLast(s: seq<bool>, x: bool)
    ensures Slide(LastOf(s, OUTLIER_WINDOW_SIZE), x) == LastOf(s + [x], OUTLIER_WINDOW_SIZE)
  {
  }

  /** A window that holds the log's last ten outcomes ejects when the log does. */
  lemma EjectsOnBurst(l: Log, e: Event)
    ensures Ejects(Window(LastOf(l.outcomes, 10), l.ejected), e.healthy, e.success) <==> BurstEjects(l, e)
  {
    var open := Reopened(l, e.healthy);
    LastOfLast(open.outcomes, e.success);
    FailuresAreFalse(LastOf(open.outcomes + [e.success], 10));
  }

  /** The window is the log's last ten outcomes. */
  lemma {:induction false} WindowIsLastTen(events: seq<Event>)
    ensures WindowAfter(events) == Window(LastOf(LogAfter(events).outcomes, 10), LogAfter(events).ejected)
  {
    if events != [] {
      var init := events[..|events| - 1];
      var last := events[|events| - 1];
      WindowIsLastTen(init);
      LastOfLast(Reopened(LogAfter(init), last.healthy).outcomes, last.success);
      EjectsOnBurst(LogAfter(init), last);
    }
  }

  /** It ejects exactly when the last ten outcomes of an open episode come to hold five failures. */
  lemma EjectsExactlyOnBurst(events: seq<Event>, i: nat)
    requires i < |events|
    ensures EjectsAt(events, i) <==> BurstEjects(LogAfter(events[..i]), events[i])
  {
    WindowIsLastTen(events[..i]);
    EjectsOnBurst(LogAfter(events[..i]), events[i]);
  }

  lemma {:induction false} FailuresBound(s: seq<bool>)
    ensures Failures(s) <= |s|
  {
    if s != [] { FailuresBound(s[1..]); }
  }

  lemma StaysBelow(w: Window, healthy: bool, success: bool)
    requires |w.outcomes| <= OUTLIER_WINDOW_SIZE && (!w.ejected ==> Failures(w.outcomes) < OUTLIER_FAILURES_BEFORE_EJECT)
    ensures var after := Observed(w, healthy, success);
            |after.outcomes| <= OUTLIER_WINDOW_SIZE && (!after.ejected ==> Failures(after.outcomes) < OUTLIER_FAILURES_BEFORE_EJECT)
    ensures Ejects(w, healthy, success) ==> Failures(Observed(w, healthy, success).outcomes) == OUTLIER_FAILURES_BEFORE_EJECT
  {
    SlideFailures(Episode(w, healthy).outcomes, success);
  }

  /** An episode not yet ejected holds fewer than five failures. */
  lemma {:induction false} OpenHoldsFewerThanFive(events: seq<Event>)
    ensures |WindowAfter(events).outcomes| <= OUTLIER_WINDOW_SIZE
    ensures !WindowAfter(events).ejected ==> Failures(WindowAfter(events).outcomes) < OUTLIER_FAILURES_BEFORE_EJECT
  {
    if events != [] {
      var init, last := events[..|events| - 1], events[|events| - 1];
      OpenHoldsFewerThanFive(init);
      StaysBelow(WindowAfter(init), last.healthy, last.success);
    }
  }

  /** So an ejection finds exactly five. */
  lemma EjectsOnFifthFailure(events: seq<Event>, i: nat)
    requires i < |events| && EjectsAt(events, i)
    ensures !Episode(WindowAfter(events[..i]), events[i].healthy).ejected
    ensures |FailedAt(Episode(WindowAfter(events[..i]), events[i].healthy).outcomes)| < 5
    ensures |FailedAt(WindowAfter(events[..i + 1]).outcomes)| == 5
  {
    FailuresAreFalse(Episode(WindowAfter(events[..i]), events[i].healthy).outcomes);
    FailuresAreFalse(WindowAfter(events[..i + 1]).outcomes);
    OpenHoldsFewerThanFive(events[..i]);
    StaysBelow(WindowAfter(events[..i]), events[i].healthy, events[i].success);
    assert events[..i + 1][..i] == events[..i];
  }

  /** Read healthy after position i, with at most m - k outcomes retained since. */
  predicate RecoveredSince(events: seq<Event>, i: int, m: nat, k: int)
    requires m <= |events|
  {
    0 <= i < k < m && events[k].healthy && |WindowAfter(events[..m]).outcomes| <= m - k
  }

  lemma {:induction false} EjectedUntilHealthy(events: seq<Event>, i: nat, m: nat)
    requires i < m <= |events| && EjectsAt(events, i)
    ensures WindowAfter(events[..m]).ejected || exists k :: RecoveredSince(events, i, m, k)
  {
    assert events[..m][..m - 1] == events[..m - 1];
    if m > i + 1 {
      var p := m - 1;
      EjectedUntilHealthy(events, i, p);
      if k :| RecoveredSince(events, i, p, k) {
        assert RecoveredSince(events, i, m, k);
      } else if events[p].healthy {
        assert RecoveredSince(events, i, m, p);
      }
    }
  }

  /** Between two ejections the backend was observed healthy, at least four observations before the second. */
  lemma EjectionsAreApart(events: seq<Event>, i: nat, j: nat)
    requires i < j < |events| && EjectsAt(events, i) && EjectsAt(events, j)
    ensures exists k :: i < k <= j - 4 && events[k].healthy
  {
    EjectedUntilHealthy(events, i, j);
    var w := WindowAfter(events[..j]);
    var e := Episode(w, events[j].healthy);
    FailuresBound(Slide(e.outcomes, false));
    if k :| RecoveredSince(events, i, j, k) {
      assert e.outcomes == [] || |e.outcomes| <= j - k;
      assert k <= j - 4 && events[k].healthy;
    }
  }
}
