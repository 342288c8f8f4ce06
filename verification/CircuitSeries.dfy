/** The circuit-state series of a changing fleet (internal/circuit/circuit.go:62-131, internal/app/app.go:287-308): breaker calls
    on live backends interleaved with reloads, each call one step. */
module CircuitSeries {
  import opened Fleet
  import opened Circuit
  import B = Breaker

  /** scanWon: the backends whose latest promotion was won by a selection scan.  known: every backend ever live. */
  datatype System = System(live: set<Handle>, snaps: map<Handle, Snapshot>, series: map<string, State>, scanWon: set<Handle>,
                           known: set<Handle>)

  datatype Choice = Call(h: Handle, call: B.Call) | Replace(removed: set<Handle>, added: set<Handle>)

  predicate Legal(s: System, c: Choice) {
    c.Replace? ==> c.removed <= s.live && c.added !! s.known && NamesApart(s.live - c.removed + c.added)
  }

  function Start(fleet: set<Handle>): System {
    System(fleet, map h | h in fleet :: ZERO, map n | n in Names(fleet) :: Closed, {}, fleet)
  }

  /** Whether the latest promotion was a scan's, after one more call. */
  predicate ScanWon(won: bool, before: Snapshot, after: Snapshot, call: B.Call) {
    if before.state == Open && after.state == HalfOpen then call.Scan? else won
  }

  function Called(cooldown: int, s: System, h: Handle, call: B.Call): System
    requires h in s.snaps && h.name in s.series
  {
    var v := B.Do(cooldown, B.View(s.snaps[h], s.series[h.name]), call);
    s.(snaps := s.snaps[h := v.snap], series := s.series[h.name := v.gauge],
       scanWon := if ScanWon(h in s.scanWon, s.snaps[h], v.snap, call) then s.scanWon + {h} else s.scanWon - {h})
  }

  /** A removed backend's series goes with it; an added one starts closed. */
  function Swapped(s: System, removed: set<Handle>, added: set<Handle>): System {
    System(s.live - removed + added, (s.snaps - removed) + map h | h in added :: ZERO,
           (s.series - Names(removed)) + map n | n in Names(added) :: Closed, s.scanWon, s.known + added)
  }

  /** Calls on a backend that is not live change no series: it is neither scanned nor admitted, and its outcomes are dropped. */
  function Do(cooldown: int, s: System, c: Choice): System {
    match c
    case Call(h, call) => if h in s.live && h in s.snaps && h.name in s.series then Called(cooldown, s, h, call) else s
    case Replace(removed, added) => Swapped(s, removed, added)
  }

  function Exec(cooldown: int, s: System, run: seq<Choice>): System {
    if run == [] then s else Do(cooldown, Exec(cooldown, s, run[..|run| - 1]), run[|run| - 1])
  }

  predicate LegalRun(cooldown: int, s: System, run: seq<Choice>) {
    run == [] || (LegalRun(cooldown, s, run[..|run| - 1]) && Legal(Exec(cooldown, s, run[..|run| - 1]), run[|run| - 1]))
  }

  lemma ExecSnoc(cooldown: int, s: System, run: seq<Choice>, c: Choice)
    ensures Exec(cooldown, s, run + [c]) == Do(cooldown, Exec(cooldown, s, run), c)
    ensures LegalRun(cooldown, s, run + [c]) <==> LegalRun(cooldown, s, run) && Legal(Exec(cooldown, s, run), c)
  {
    assert (run + [c])[..|run|] == run;
  }

  /** What a series reads for a state. */
  function Read(state: State, scanWon: bool): State {
    if state == HalfOpen && scanWon then Open else state
  }

  /** Each live backend's series reads its state, except that it reads open while half-open after a scan-won promotion; no
      other name has a series. */
  predicate SeriesRead(s: System) {
    && s.series.Keys == Names(s.live)
    && forall h :: h in s.live ==> h in s.snaps && h.name in s.series && s.series[h.name] == Read(s.snaps[h].state, h in s.scanWon)
  }

  predicate Inv(s: System) {
    s.live <= s.known && s.scanWon <= s.known && s.snaps.Keys == s.live && NamesApart(s.live) && SeriesRead(s)
  }

  lemma CallReads(cooldown: int, snap: Snapshot, gauge: State, won: bool, call: B.Call)
    requires gauge == Read(snap.state, won)
    ensures var v := B.Do(cooldown, B.View(snap, gauge), call); v.gauge == Read(v.snap.state, ScanWon(won, snap, v.snap, call))
  {
  }

  lemma CallKeepsInv(cooldown: int, s: System, h: Handle, call: B.Call)
    requires Inv(s) && h in s.live && h in s.snaps && h.name in s.series
    ensures Inv(Called(cooldown, s, h, call))
  {
    CallReads(cooldown, s.snaps[h], s.series[h.name], h in s.scanWon, call);
    var t := Called(cooldown, s, h, call);
    assert t.series.Keys == s.series.Keys;
    forall g | g in t.live
      ensures g in t.snaps && g.name in t.series && t.series[g.name] == Read(t.snaps[g].state, g in t.scanWon)
    {
      if g != h { assert g.name != h.name; }
    }
  }

  lemma SwapKeepsSeries(s: System, removed: set<Handle>, added: set<Handle>)
    requires Inv(s) && Legal(s, Replace(removed, added))
    ensures Swapped(s, removed, added).series.Keys == Names(Swapped(s, removed, added).live)
  {
    var t := Swapped(s, removed, added);
    forall x
      ensures x in t.series.Keys <==> x in Names(t.live)
    {
      if x in Names(added) {
        var h :| h in added && h.name == x;
        assert h in t.live;
      } else if x in Names(s.live) {
        var h :| h in s.live && h.name == x;
        assert h in removed <==> x in Names(removed);
      }
    }
  }

  lemma SwapKeepsInv(s: System, removed: set<Handle>, added: set<Handle>)
    requires Inv(s) && Legal(s, Replace(removed, added))
    ensures Inv(Swapped(s, removed, added))
  {
    SwapKeepsSeries(s, removed, added);
    var t := Swapped(s, removed, added);
    assert t.snaps.Keys == t.live;
    forall h | h in t.live
      ensures h in t.snaps && h.name in t.series && t.series[h.name] == Read(t.snaps[h].state, h in t.scanWon)
    {
      assert h.name in Names(t.live);
      if h !in added { assert h.name !in Names(added) && h.name !in Names(removed); }
    }
  }

  /** In every run of breaker calls and reloads. */
  lemma {:induction false} SeriesReadInEveryRun(cooldown: int, fleet: set<Handle>, run: seq<Choice>)
    requires NamesApart(fleet) && LegalRun(cooldown, Start(fleet), run)
    ensures Inv(Exec(cooldown, Start(fleet), run))
  {
    if run != [] {
      var init, c := run[..|run| - 1], run[|run| - 1];
      SeriesReadInEveryRun(cooldown, fleet, init);
      var s := Exec(cooldown, Start(fleet), init);
      match c
      case Call(h, call) => if h in s.live { assert h.name in Names(s.live); CallKeepsInv(cooldown, s, h, call); }
      case Replace(removed, added) => SwapKeepsInv(s, removed, added);
    }
  }
}
