/** Hot reload (internal/app/app.go:226-328, internal/app/admin.go:78-123): how a diff, the registry's Apply, the
    selector swap, the series and the loaded-config record compose over any run of accepted and rejected attempts. */
module App {
  import opened Fleet
  import opened Config
  import opened Registry
  import C = Circuit

  /** Address and URL syntax; parses is the registry's own URL parse, which accepts whatever validation accepts. */
  datatype Env = Env(syntax: Syntax, parses: string -> bool)

  datatype Rejection = ParseError | ValidationError | NonBackendChange | SelectorError | ApplyFailed

  /** The outcome of one attempt; no error means success. */
  datatype Status = Status(error: Option<Rejection>, time: int)

  /** Everything a reload may touch.  Gauges are maps from the backend label; drains are the drain goroutines started. */
  datatype World = World(
    roster: Roster, loaded: Resolved, selector: string, algorithmSeries: set<string>, last: Option<Status>,
    healthySeries: map<string, bool>, circuitSeries: map<string, C.State>, activeSeries: map<string, int>,
    probers: set<Handle>, windows: set<Handle>, drains: set<Handle>)

  function NamesOf(s: seq<Handle>): set<string> {
    set h | h in s :: h.name
  }

  function Delete<V>(m: map<string, V>, s: seq<Handle>): map<string, V> {
    m - NamesOf(s)
  }

  function Seed<V>(m: map<string, V>, s: seq<Handle>, v: V): map<string, V> {
    m + map n | n in NamesOf(s) :: v
  }

  /** The active-requests seeds: 0 for each added name that the same reload did not remove. */
  function SeedActive(m: map<string, int>, added: seq<Handle>, removed: seq<Handle>): map<string, int> {
    m + map n | n in NamesOf(added) - NamesOf(removed) :: 0
  }

  /** lb_algorithm_info: the current series is set, a different previous one deleted. */
  function MoveAlgorithm(series: set<string>, previous: string, current: string): set<string> {
    (series + {current}) - (if previous != "" && previous != current then {previous} else {})
  }

  lemma Snoc<V>(m: map<string, V>, s: seq<Handle>, h: Handle, v: V)
    ensures Delete(m, s + [h]) == Delete(m, s) - {h.name}
    ensures Seed(m, s + [h], v) == Seed(m, s, v)[h.name := v]
    ensures SetOf(s + [h]) == SetOf(s) + {h} && NamesOf(s + [h]) == NamesOf(s) + {h.name}
  {
    assert NamesOf(s + [h]) == NamesOf(s) + {h.name};
  }

  lemma SnocActive(m: map<string, int>, s: seq<Handle>, h: Handle, gone: seq<Handle>)
    ensures SeedActive(m, s + [h], gone)
         == if h.name in NamesOf(gone) then SeedActive(m, s, gone) else SeedActive(m, s, gone)[h.name := 0]
  {
    Snoc(m, s, h, 0);
  }

  /** One removed backend's prober, window and series go; its drain starts. */
  function Without(w: World, h: Handle): World {
    w.(probers := w.probers - {h}, windows := w.windows - {h}, drains := w.drains + {h},
       healthySeries := w.healthySeries - {h.name}, circuitSeries := w.circuitSeries - {h.name})
  }

  function WithoutAll(w: World, gone: seq<Handle>): World {
    if gone == [] then w else Without(WithoutAll(w, gone[..|gone| - 1]), gone[|gone| - 1])
  }

  lemma {:induction false} WithoutAllSeries(w: World, gone: seq<Handle>)
    ensures WithoutAll(w, gone).healthySeries == Delete(w.healthySeries, gone)
    ensures WithoutAll(w, gone).circuitSeries == Delete(w.circuitSeries, gone)
  {
    if gone != [] {
      var init, last := gone[..|gone| - 1], gone[|gone| - 1];
      WithoutAllSeries(w, init);
      assert gone == init + [last];
      Snoc(w.healthySeries, init, last, false);
      Snoc(w.circuitSeries, init, last, C.Closed);
    }
  }

  lemma {:induction false} WithoutAllSets(w: World, gone: seq<Handle>)
    ensures WithoutAll(w, gone).probers == w.probers - SetOf(gone)
    ensures WithoutAll(w, gone).windows == w.windows - SetOf(gone)
    ensures WithoutAll(w, gone).drains == w.drains + SetOf(gone)
  {
    if gone != [] {
      var init, last := gone[..|gone| - 1], gone[|gone| - 1];
      WithoutAllSets(w, init);
      assert gone == init + [last];
      assert SetOf(init + [last]) == SetOf(init) + {last};
    }
  }

  /** One added backend's three series. */
  function With(w: World, h: Handle, gone: seq<Handle>): World {
    w.(healthySeries := w.healthySeries[h.name := false], circuitSeries := w.circuitSeries[h.name := C.Closed],
       activeSeries := if h.name in NamesOf(gone) then w.activeSeries else w.activeSeries[h.name := 0])
  }

  function WithAll(w: World, added: seq<Handle>, gone: seq<Handle>): World {
    if added == [] then w else With(WithAll(w, added[..|added| - 1], gone), added[|added| - 1], gone)
  }

  lemma {:induction false} WithAllSeries(w: World, added: seq<Handle>, gone: seq<Handle>)
    ensures WithAll(w, added, gone).healthySeries == Seed(w.healthySeries, added, false)
    ensures WithAll(w, added, gone).circuitSeries == Seed(w.circuitSeries, added, C.Closed)
  {
    if added != [] {
      var init, last := added[..|added| - 1], added[|added| - 1];
      WithAllSeries(w, init, gone);
      assert added == init + [last];
      Snoc(w.healthySeries, init, last, false);
      Snoc(w.circuitSeries, init, last, C.Closed);
    }
  }

  lemma {:induction false} WithAllActive(w: World, added: seq<Handle>, gone: seq<Handle>)
    ensures WithAll(w, added, gone).activeSeries == SeedActive(w.activeSeries, added, gone)
  {
    if added != [] {
      var init, last := added[..|added| - 1], added[|added| - 1];
      WithAllActive(w, init, gone);
      assert added == init + [last];
      SnocActive(w.activeSeries, init, last, gone);
    }
  }

  function Installed(w: World, cfg: Resolved, a: Applied): World {
    World(a.roster, cfg,
          if cfg.algorithm != w.loaded.algorithm then cfg.algorithm else w.selector,
          if cfg.algorithm != w.loaded.algorithm then MoveAlgorithm(w.algorithmSeries, w.loaded.algorithm, cfg.algorithm)
          else w.algorithmSeries,
          w.last,
          Seed(Delete(w.healthySeries, a.removed), a.added, false),
          Seed(Delete(w.circuitSeries, a.removed), a.added, C.Closed),
          SeedActive(w.activeSeries, a.added, a.removed),
          (w.probers - SetOf(a.removed)) + SetOf(a.added), w.windows - SetOf(a.removed), w.drains + SetOf(a.removed))
  }

  /** One reload to a validated configuration. */
  function ReloadTo(env: Env, w: World, cfg: Resolved): Result<World, Rejection> {
    if !SameNonBackend(w.loaded, cfg) then Err(NonBackendChange)
    else if cfg.algorithm != w.loaded.algorithm && cfg.algorithm !in ALGORITHMS then Err(SelectorError)
    else
      var applied := ApplyDiff(w.roster, Diff(w.loaded.backends, cfg.backends), cfg.backends, env.parses);
      if applied.Err? then Err(ApplyFailed) else Ok(Installed(w, cfg, applied.value))
  }

  /** What a trigger hands over: a document that loaded or did not, or a configuration validated already. */
  datatype Attempt = Document(doc: Option<Raw>) | Validated(cfg: Resolved)

  function Try(env: Env, w: World, attempt: Attempt): Result<World, Rejection> {
    match attempt
    case Document(doc) =>
      if doc.None? then Err(ParseError)
      else if !Valid(env.syntax, Resolve(doc.value)) then Err(ValidationError)
      else ReloadTo(env, w, Resolve(doc.value))
    case Validated(cfg) => ReloadTo(env, w, cfg)
  }

  /** An attempt and its record. */
  function Reload(env: Env, w: World, attempt: Attempt, time: int): World {
    var r := Try(env, w, attempt);
    if r.Ok? then r.value.(last := Some(Status(None, time))) else w.(last := Some(Status(Some(r.error), time)))
  }

  // ---------- the program ----------

  class App {
    const env: Env
    const reg: Registry
    var loaded: Resolved
    var selector: string
    var algorithmSeries: set<string>
    var last: Option<Status>
    var healthySeries: map<string, bool>
    var circuitSeries: map<string, C.State>
    var activeSeries: map<string, int>
    var probers: set<Handle>
    var windows: set<Handle>
    var drains: set<Handle>

    function View(): World
      reads this, reg
    {
      World(reg.View(), loaded, selector, algorithmSeries, last, healthySeries, circuitSeries, activeSeries, probers, windows, drains)
    }

    constructor (env: Env, cfg: Resolved)
      ensures this.env == env && fresh(reg) && View() == Start(cfg)
      ensures ConfigsOf(reg.backends) == cfg.backends && reg.version == 1 && loaded == cfg && selector == cfg.algorithm
      ensures forall h :: h in reg.backends ==>
                && h in reg.healthy && h in probers
                && h.name in healthySeries && healthySeries[h.name]
                && h.name in circuitSeries && circuitSeries[h.name] == C.Closed
                && h.name in activeSeries && activeSeries[h.name] == 0
    {
      this.env, loaded, selector, algorithmSeries, last := env, cfg, cfg.algorithm, {cfg.algorithm}, None;
      reg := new Registry(cfg.backends);
      new;
      healthySeries := Seed(map[], reg.backends, true);
      circuitSeries := Seed(map[], reg.backends, C.Closed);
      activeSeries := Seed(map[], reg.backends, 0);
      probers, windows, drains := SetOf(reg.backends), {}, {};
    }

    method Forget(h: Handle)
      modifies this`probers, this`windows, this`drains, this`healthySeries, this`circuitSeries
      ensures healthySeries == old(healthySeries) - {h.name} && circuitSeries == old(circuitSeries) - {h.name}
      ensures probers == old(probers) - {h} && windows == old(windows) - {h} && drains == old(drains) + {h}
    {
      probers := probers - {h};
      windows := windows - {h};
      healthySeries := healthySeries - {h.name};
      circuitSeries := circuitSeries - {h.name};
      drains := drains + {h};
    }

    method RetireAll(gone: seq<Handle>)
      modifies this`probers, this`windows, this`drains, this`healthySeries, this`circuitSeries
      ensures healthySeries == Delete(old(healthySeries), gone) && circuitSeries == Delete(old(circuitSeries), gone)
      ensures probers == old(probers) - SetOf(gone) && windows == old(windows) - SetOf(gone) && drains == old(drains) + SetOf(gone)
    {
      ghost var was := View();
      for i := 0 to |gone|
        invariant WithoutAll(was, gone[..i]) ==
                    was.(probers := probers, windows := windows, drains := drains, healthySeries := healthySeries,
                         circuitSeries := circuitSeries)
      {
        assert gone[..i + 1][..i] == gone[..i];
        Forget(gone[i]);
      }
      assert gone[..|gone|] == gone;
      WithoutAllSeries(was, gone);
      WithoutAllSets(was, gone);
    }

    method Introduce(h: Handle, gone: seq<Handle>)
      modifies this`healthySeries, this`circuitSeries, this`activeSeries
      ensures healthySeries == old(healthySeries)[h.name := false] && circuitSeries == old(circuitSeries)[h.name := C.Closed]
      ensures activeSeries == if h.name in NamesOf(gone) then old(activeSeries) else old(activeSeries)[h.name := 0]
    {
      if h.name !in NamesOf(gone) { activeSeries := activeSeries[h.name := 0]; }
      healthySeries := healthySeries[h.name := false];
      circuitSeries := circuitSeries[h.name := C.Closed];
    }

    method SeedAll(added: seq<Handle>, gone: seq<Handle>)
      modifies this`healthySeries, this`circuitSeries, this`activeSeries
      ensures healthySeries == Seed(old(healthySeries), added, false) && circuitSeries == Seed(old(circuitSeries), added, C.Closed)
      ensures activeSeries == SeedActive(old(activeSeries), added, gone)
    {
      ghost var was := View();
      for i := 0 to |added|
        invariant WithAll(was, added[..i], gone) ==
                    was.(healthySeries := healthySeries, circuitSeries := circuitSeries, activeSeries := activeSeries)
      {
        assert added[..i + 1][..i] == added[..i];
        Introduce(added[i], gone);
      }
      assert added[..|added|] == added;
      WithAllSeries(was, added, gone);
      WithAllActive(was, added, gone);
    }

    method StartProbers(added: seq<Handle>)
      modifies this`probers
      ensures probers == old(probers) + SetOf(added)
    {
      for i := 0 to |added|
        invariant probers == old(probers) + SetOf(added[..i])
      {
        assert added[..i + 1] == added[..i] + [added[i]];
        probers := probers + {added[i]};
      }
      assert added[..|added|] == added;
    }

    method InstallBackends(a: Applied)
      modifies this`probers, this`windows, this`drains, this`healthySeries, this`circuitSeries, this`activeSeries
      ensures healthySeries == Seed(Delete(old(healthySeries), a.removed), a.added, false)
      ensures circuitSeries == Seed(Delete(old(circuitSeries), a.removed), a.added, C.Closed)
      ensures activeSeries == SeedActive(old(activeSeries), a.added, a.removed)
      ensures probers == (old(probers) - SetOf(a.removed)) + SetOf(a.added)
      ensures windows == old(windows) - SetOf(a.removed) && drains == old(drains) + SetOf(a.removed)
    {
      RetireAll(a.removed);
      SeedAll(a.added, a.removed);
      StartProbers(a.added);
    }

    /** Everything after a successful Apply, in order: selector and algorithm series, record, removals, seeds, probers. */
    method Install(cfg: Resolved, a: Applied)
      requires reg.View() == a.roster
      modifies this
      ensures View() == Installed(old(View()), cfg, a)
    {
      if cfg.algorithm != loaded.algorithm {
        selector := cfg.algorithm;
        algorithmSeries := MoveAlgorithm(algorithmSeries, loaded.algorithm, cfg.algorithm);
      }
      loaded := cfg;
      InstallBackends(a);
    }

    /** The new selector is built first, so that a failure leaves everything unchanged; then the diff is applied. */
    method ReloadLocked(cfg: Resolved) returns (error: Option<Rejection>)
      requires NulFree(loaded.backends) && NulFree(cfg.backends)
      modifies this, reg
      ensures var r := ReloadTo(env, old(View()), cfg);
              View() == (if r.Ok? then r.value else old(View())) && error == if r.Ok? then None else Some(r.error)
    {
      ghost var before := View();
      var changed := NonBackendChanges(loaded, cfg);
      if |changed| > 0 { return Some(NonBackendChange); }
      if cfg.algorithm != loaded.algorithm && cfg.algorithm !in ALGORITHMS { return Some(SelectorError); }
      var diff := DiffBackends(loaded.backends, cfg.backends);
      var applied := reg.Apply(diff, cfg.backends, env.parses);
      if applied.Err? { return Some(ApplyFailed); }
      assert View() == before.(roster := applied.value.roster);
      Install(cfg, applied.value);
      return None;
    }

    method ReloadValidated(cfg: Resolved, now: int) returns (error: Option<Rejection>)
      requires NulFree(loaded.backends) && NulFree(cfg.backends)
      modifies this, reg
      ensures View() == Reload(env, old(View()), Validated(cfg), now) && View().last == Some(Status(error, now))
      ensures EnvOk(env) && WorldOk(env, old(loaded), old(View())) && Valid(env.syntax, cfg) ==>
                if SameNonBackend(old(loaded), cfg)
                then error.None? && Adopts(old(View()), View(), cfg) && WorldOk(env, old(loaded), View())
                else error == Some(NonBackendChange) && View() == old(View()).(last := Some(Status(error, now)))
    {
      ghost var before := View();
      error := ReloadLocked(cfg);
      last := Some(Status(error, now));
      if EnvOk(env) && WorldOk(env, before.loaded, before) && Valid(env.syntax, cfg) {
        ValidatedOutcome(env, before.loaded, before, cfg, now);
      }
    }

    /** Load, validate and reload, without the record. */
    method LoadValidateApply(doc: Option<Raw>) returns (error: Option<Rejection>)
      requires NulFree(loaded.backends)
      requires env.syntax.hostPort(DEFAULT_METRICS_LISTEN) && env.syntax.hostPort(DEFAULT_HEALTH_LISTEN)
      modifies this, reg
      ensures var r := Try(env, old(View()), Document(doc));
              View() == (if r.Ok? then r.value else old(View())) && error == if r.Ok? then None else Some(r.error)
    {
      if doc.None? { return Some(ParseError); }
      var resolved := Validate(env.syntax, doc.value);
      if resolved.Err? { return Some(ValidationError); }
      ValidNamesAreNulFree(env.syntax, resolved.value);
      error := ReloadLocked(resolved.value);
    }

    /** The one operation both triggers share.  On any state that a run leaves, the answer names the first stage that refuses
        the document; otherwise the document is what is loaded and listed. */
    method ReloadFrom(doc: Option<Raw>, now: int) returns (error: Option<Rejection>)
      requires NulFree(loaded.backends)
      requires env.syntax.hostPort(DEFAULT_METRICS_LISTEN) && env.syntax.hostPort(DEFAULT_HEALTH_LISTEN)
      modifies this, reg
      ensures View() == Reload(env, old(View()), Document(doc), now) && View().last == Some(Status(error, now))
      ensures EnvOk(env) && WorldOk(env, old(loaded), old(View())) ==>
                && WorldOk(env, old(loaded), View())
                && error == (if doc.None? then Some(ParseError)
                             else if !Valid(env.syntax, Resolve(doc.value)) then Some(ValidationError)
                             else if !SameNonBackend(old(loaded), Resolve(doc.value)) then Some(NonBackendChange)
                             else None)
                && if error.Some? then View() == old(View()).(last := Some(Status(error, now)))
                   else Adopts(old(View()), View(), Resolve(doc.value)) && ConfigsOf(reg.backends) == doc.value.backends
    {
      ghost var before := View();
      error := LoadValidateApply(doc);
      last := Some(Status(error, now));
      if EnvOk(env) && WorldOk(env, before.loaded, before) { DocumentOutcome(env, before.loaded, before, doc, now); }
    }
  }

  lemma ValidNamesAreNulFree(syntax: Syntax, c: Resolved)
    requires Valid(syntax, c)
    ensures NulFree(c.backends)
  {
    forall b | b in c.backends ensures '\0' !in b.name {
      assert ValidBackend(syntax, b);
    }
  }

  // ---------- whole runs ----------

  function Start(cfg: Resolved): World {
    var roster := FirstRoster(cfg.backends);
    World(roster, cfg, cfg.algorithm, {cfg.algorithm}, None, Seed(map[], roster.backends, true),
          Seed(map[], roster.backends, C.Closed), Seed(map[], roster.backends, 0), SetOf(roster.backends), {}, {})
  }

  /** Traffic creates the outlier window of a live backend; everything else here is a reload attempt. */
  datatype Choice = ReloadNow(attempt: Attempt, time: int) | Traffic(h: Handle)

  function Do(env: Env, w: World, c: Choice): World {
    match c
    case ReloadNow(attempt, time) => Reload(env, w, attempt, time)
    case Traffic(h) => if h in w.roster.removed || h !in w.roster.backends then w else w.(windows := w.windows + {h})
  }

  function Run(env: Env, cfg: Resolved, choices: seq<Choice>): World {
    if choices == [] then Start(cfg) else Do(env, Run(env, cfg, choices[..|choices| - 1]), choices[|choices| - 1])
  }

  ghost predicate EnvOk(env: Env) {
    forall url :: env.syntax.backendUrl(url) ==> env.parses(url)
  }

  /** Attempts that claim to be validated are. */
  predicate Honest(env: Env, c: Choice) {
    c.ReloadNow? && c.attempt.Validated? ==> Valid(env.syntax, c.attempt.cfg)
  }

  /** Registry, loaded configuration and selector agree, and the fields a reload may not change are the startup ones. */
  ghost predicate LoadedOk(env: Env, startup: Resolved, w: World) {
    && RosterOk(w.roster) && (forall h :: h in w.roster.healthy ==> h.id < w.roster.nextId)
    && ConfigsOf(w.roster.backends) == w.loaded.backends
    && Valid(env.syntax, w.loaded) && SameNonBackend(startup, w.loaded)
    && w.selector == w.loaded.algorithm && w.algorithmSeries == {w.loaded.algorithm}
  }

  /** The per-backend series, probers and windows are the live backends', and a drain was started for each retired one. */
  predicate SeriesOk(w: World) {
    && w.healthySeries.Keys == NamesOf(w.roster.backends) && w.circuitSeries.Keys == NamesOf(w.roster.backends)
    && NamesOf(w.roster.backends) <= w.activeSeries.Keys
    && w.probers == SetOf(w.roster.backends) && w.windows <= w.probers && w.drains == w.roster.removed
  }

  ghost predicate WorldOk(env: Env, startup: Resolved, w: World) {
    LoadedOk(env, startup, w) && SeriesOk(w)
  }

  lemma NamesAfter(r: Roster, n: seq<BackendConfig>, a: Applied)
    requires RosterOk(r) && ReloadedTo(r, n, a)
    ensures (NamesOf(r.backends) - NamesOf(a.removed)) + NamesOf(a.added) == NamesOf(a.roster.backends)
    ensures (SetOf(r.backends) - SetOf(a.removed)) + SetOf(a.added) == SetOf(a.roster.backends)
  {
    forall name ensures name in (NamesOf(r.backends) - NamesOf(a.removed)) + NamesOf(a.added) <==> name in NamesOf(a.roster.backends) {
      if name in NamesOf(r.backends) && name !in NamesOf(a.removed) {
        var h :| h in r.backends && h.name == name;
        assert h in a.roster.backends;
      }
      if h :| h in a.roster.backends && h.name == name && name !in NamesOf(a.added) {
        assert h in r.backends;
        if g :| g in a.removed && g.name == name {
          ByNameFinds(r.backends, name);
          assert false;
        }
      }
    }
  }

  lemma SameNonBackendTransitive(a: Resolved, b: Resolved, c: Resolved)
    requires SameNonBackend(a, b) && SameNonBackend(b, c)
    ensures SameNonBackend(a, c)
  {}

  lemma InstalledLoaded(env: Env, startup: Resolved, w: World, cfg: Resolved, a: Applied)
    requires LoadedOk(env, startup, w) && Valid(env.syntax, cfg) && SameNonBackend(w.loaded, cfg)
    requires ReloadedTo(w.roster, cfg.backends, a)
    ensures LoadedOk(env, startup, Installed(w, cfg, a))
  {
    SameNonBackendTransitive(startup, w.loaded, cfg);
  }

  lemma InstalledSeries(w: World, cfg: Resolved, a: Applied)
    requires RosterOk(w.roster) && SeriesOk(w) && ReloadedTo(w.roster, cfg.backends, a)
    ensures SeriesOk(Installed(w, cfg, a))
  {
    NamesAfter(w.roster, cfg.backends, a);
    SeriesKeys(w.healthySeries, a.removed, a.added, false);
    SeriesKeys(w.circuitSeries, a.removed, a.added, C.Closed);
    ActiveKeys(w, cfg, a);
  }

  lemma InstalledOk(env: Env, startup: Resolved, w: World, cfg: Resolved, a: Applied)
    requires WorldOk(env, startup, w) && Valid(env.syntax, cfg) && SameNonBackend(w.loaded, cfg)
    requires ReloadedTo(w.roster, cfg.backends, a)
    ensures WorldOk(env, startup, Installed(w, cfg, a))
  {
    InstalledLoaded(env, startup, w, cfg, a);
    InstalledSeries(w, cfg, a);
  }

  /** Every live name keeps or gets an active-requests series. */
  lemma ActiveKeys(w: World, cfg: Resolved, a: Applied)
    requires RosterOk(w.roster) && ReloadedTo(w.roster, cfg.backends, a)
    requires NamesOf(w.roster.backends) <= w.activeSeries.Keys
    ensures NamesOf(a.roster.backends) <= SeedActive(w.activeSeries, a.added, a.removed).Keys
  {
    forall name | name in NamesOf(a.roster.backends)
      ensures name in SeedActive(w.activeSeries, a.added, a.removed)
    {
      NamesAfter(w.roster, cfg.backends, a);
      if name in NamesOf(a.removed) { RemovedWereLive(w.roster, cfg.backends, a, name); }
    }
  }

  lemma RemovedWereLive(r: Roster, n: seq<BackendConfig>, a: Applied, name: string)
    requires ReloadedTo(r, n, a) && name in NamesOf(a.removed)
    ensures name in NamesOf(r.backends)
  {
    var h :| h in a.removed && h.name == name;
    assert h in r.backends;
  }

  lemma SeriesKeys<V>(m: map<string, V>, gone: seq<Handle>, added: seq<Handle>, v: V)
    ensures Seed(Delete(m, gone), added, v).Keys == (m.Keys - NamesOf(gone)) + NamesOf(added)
  {}

  /** The per-backend series an accepted reload leaves: an added name starts unhealthy and closed, whatever a removed
      backend of the name had; it starts at 0 active only if the reload did not remove the name; a name removed and
      not added loses its healthy and circuit series but keeps its active one; every other name keeps all three. */
  lemma SeriesAfterReload(w: World, cfg: Resolved, a: Applied, name: string)
    ensures var w' := Installed(w, cfg, a);
            var added, removed := name in NamesOf(a.added), name in NamesOf(a.removed);
            && (added ==> name in w'.healthySeries && !w'.healthySeries[name] && name in w'.circuitSeries && w'.circuitSeries[name] == C.Closed)
            && (added && !removed ==> name in w'.activeSeries && w'.activeSeries[name] == 0)
            && (!added && removed ==> name !in w'.healthySeries && name !in w'.circuitSeries)
            && (!added && !removed ==> SameAt(w.healthySeries, w'.healthySeries, name) && SameAt(w.circuitSeries, w'.circuitSeries, name))
            && (removed || !added ==> SameAt(w.activeSeries, w'.activeSeries, name))
  {
  }

  predicate SameAt<V(==)>(m: map<string, V>, m': map<string, V>, name: string) {
    (name in m <==> name in m') && (name in m ==> m[name] == m'[name])
  }

  /** A valid configuration is accepted exactly when its non-backend fields are the loaded ones. */
  lemma ReloadStep(env: Env, startup: Resolved, w: World, cfg: Resolved) returns (a: Applied)
    requires EnvOk(env) && WorldOk(env, startup, w) && Valid(env.syntax, cfg)
    ensures var r := ReloadTo(env, w, cfg);
            if SameNonBackend(w.loaded, cfg)
            then r == Ok(Installed(w, cfg, a)) && ReloadedTo(w.roster, cfg.backends, a) && WorldOk(env, startup, r.value)
            else r == Err(NonBackendChange)
  {
    a := Applied(w.roster, [], []);
    if SameNonBackend(w.loaded, cfg) {
      ValidNamesAreNulFree(env.syntax, cfg);
      forall b | b in cfg.backends ensures env.parses(b.url) {
        assert ValidBackend(env.syntax, b);
      }
      ApplySimulates(w.roster, cfg.backends, env.parses);
      a := ApplyDiff(w.roster, Diff(w.loaded.backends, cfg.backends), cfg.backends, env.parses).value;
      InstalledOk(env, startup, w, cfg, a);
    }
  }

  /** w' has adopted cfg after w: cfg is loaded, listed in its order and selected by, objects of entries listed before are the
      same objects with their health and windows, and the version is the next one. */
  predicate Adopts(w: World, w': World, cfg: Resolved) {
    && w'.loaded == cfg && ConfigsOf(w'.roster.backends) == cfg.backends && w'.selector == cfg.algorithm
    && w'.roster.version == w.roster.version + 1
    && (forall h :: h in w'.roster.backends ==> (h in w.roster.backends <==> ConfigOf(h) in w.loaded.backends))
    && w'.roster.healthy == w.roster.healthy && w'.windows == w.windows * SetOf(w'.roster.backends)
  }

  lemma WindowsKept(w: World, n: seq<BackendConfig>, a: Applied)
    requires w.windows <= SetOf(w.roster.backends) && ReloadedTo(w.roster, n, a)
    ensures w.windows - SetOf(a.removed) == w.windows * SetOf(a.roster.backends)
  {
  }

  /** A configuration validated before: refused exactly for a changed non-backend field, and served otherwise. */
  lemma ValidatedOutcome(env: Env, startup: Resolved, w: World, cfg: Resolved, now: int)
    requires EnvOk(env) && WorldOk(env, startup, w) && Valid(env.syntax, cfg)
    ensures var w' := Reload(env, w, Validated(cfg), now);
            if SameNonBackend(w.loaded, cfg)
            then WorldOk(env, startup, w') && Adopts(w, w', cfg) && w'.last == Some(Status(None, now))
            else w' == w.(last := Some(Status(Some(NonBackendChange), now)))
  {
    var a := ReloadStep(env, startup, w, cfg);
    if SameNonBackend(w.loaded, cfg) { WindowsKept(w, cfg.backends, a); }
  }

  /** A document: refused by the first of parsing, validation and the non-backend comparison that it fails, and served
      otherwise. */
  lemma DocumentOutcome(env: Env, startup: Resolved, w: World, doc: Option<Raw>, now: int)
    requires EnvOk(env) && WorldOk(env, startup, w)
    ensures var w' := Reload(env, w, Document(doc), now);
            && (doc.None? ==> w' == w.(last := Some(Status(Some(ParseError), now))))
            && (doc.Some? && !Valid(env.syntax, Resolve(doc.value)) ==> w' == w.(last := Some(Status(Some(ValidationError), now))))
            && (doc.Some? && Valid(env.syntax, Resolve(doc.value)) && !SameNonBackend(w.loaded, Resolve(doc.value)) ==>
                  w' == w.(last := Some(Status(Some(NonBackendChange), now))))
            && (doc.Some? && Valid(env.syntax, Resolve(doc.value)) && SameNonBackend(w.loaded, Resolve(doc.value)) ==>
                  && WorldOk(env, startup, w') && Adopts(w, w', Resolve(doc.value))
                  && ConfigsOf(w'.roster.backends) == doc.value.backends && w'.last == Some(Status(None, now)))
  {
    if doc.Some? && Valid(env.syntax, Resolve(doc.value)) {
      ValidatedOutcome(env, startup, w, Resolve(doc.value), now);
    }
  }

  lemma StartOk(env: Env, cfg: Resolved)
    requires Valid(env.syntax, cfg)
    ensures WorldOk(env, cfg, Start(cfg))
  {
    ValidNamesAreNulFree(env.syntax, cfg);
    HandlesFromConfigs(cfg.backends);
  }

  lemma {:induction false} HandlesFromConfigs(cfgs: seq<BackendConfig>)
    ensures ConfigsOf(HandlesFrom(cfgs, 0)) == cfgs && forall h :: h in HandlesFrom(cfgs, 0) ==> h.id < |cfgs|
  {
    if cfgs != [] { HandlesFromConfigs(cfgs[..|cfgs| - 1]); }
  }

  /** Whole-run reload safety: over any mix of accepted and rejected attempts, the registry lists exactly the loaded
      backends, the loaded non-backend fields are the startup ones, the installed selector and the one algorithm
      series name the loaded algorithm, the per-backend series and probers are exactly the live backends', and a drain
      was started for exactly the retired ones. */
  lemma {:induction false} RunOk(env: Env, cfg: Resolved, choices: seq<Choice>)
    requires EnvOk(env) && Valid(env.syntax, cfg) && forall c :: c in choices ==> Honest(env, c)
    ensures WorldOk(env, cfg, Run(env, cfg, choices))
  {
    if choices == [] {
      StartOk(env, cfg);
    } else {
      var before, c := choices[..|choices| - 1], choices[|choices| - 1];
      assert choices == before + [c];
      RunOk(env, cfg, before);
      DoOk(env, cfg, Run(env, cfg, before), c);
    }
  }

  lemma DoOk(env: Env, startup: Resolved, w: World, c: Choice)
    requires EnvOk(env) && WorldOk(env, startup, w) && Honest(env, c)
    ensures WorldOk(env, startup, Do(env, w, c))
  {
    if c.ReloadNow? {
      match c.attempt
      case Document(doc) =>
        if doc.Some? && Valid(env.syntax, Resolve(doc.value)) { var a := ReloadStep(env, startup, w, Resolve(doc.value)); }
      case Validated(cfg) => var a := ReloadStep(env, startup, w, cfg);
    }
  }

  /** What one choice may do to the registry. */
  ghost predicate Grows(r: Roster, r': Roster, accepted: nat) {
    && r.removed <= r'.removed && r.nextId <= r'.nextId && r'.version == r.version + accepted
    && (forall h :: h in r.removed ==> h !in r'.backends)
    && (forall h :: h in r'.backends && h !in r.backends ==> h.id >= r.nextId)
  }

  lemma DoGrows(env: Env, startup: Resolved, w: World, c: Choice)
    requires EnvOk(env) && WorldOk(env, startup, w) && Honest(env, c)
    ensures Grows(w.roster, Do(env, w, c).roster, if c.ReloadNow? && Try(env, w, c.attempt).Ok? then 1 else 0)
  {
    if c.ReloadNow? {
      match c.attempt
      case Document(doc) =>
        if doc.Some? && Valid(env.syntax, Resolve(doc.value)) { var a := ReloadStep(env, startup, w, Resolve(doc.value)); }
      case Validated(cfg) => var a := ReloadStep(env, startup, w, cfg);
    }
  }

  /** The run without its rejected attempts. */
  function Kept(env: Env, cfg: Resolved, choices: seq<Choice>): seq<Choice> {
    if choices == [] then []
    else
      var before, c := choices[..|choices| - 1], choices[|choices| - 1];
      if c.ReloadNow? && Try(env, Run(env, cfg, before), c.attempt).Err? then Kept(env, cfg, before)
      else Kept(env, cfg, before) + [c]
  }

  lemma RunSnoc(env: Env, cfg: Resolved, choices: seq<Choice>, c: Choice)
    ensures Run(env, cfg, choices + [c]) == Do(env, Run(env, cfg, choices), c)
  {
    assert (choices + [c])[..|choices|] == choices;
  }

  /** What an attempt does depends on nothing that the record says. */
  lemma RecordIsNotRead(env: Env, w: World, v: World, attempt: Attempt)
    requires v == w.(last := v.last)
    ensures Try(env, w, attempt).Ok? <==> Try(env, v, attempt).Ok?
    ensures Try(env, w, attempt).Ok? ==> Try(env, v, attempt).value == Try(env, w, attempt).value.(last := v.last)
    ensures Try(env, w, attempt).Err? ==> Try(env, v, attempt) == Try(env, w, attempt)
  {
  }

  /** Rejected attempts leave no trace but the record: without them the run ends in the same state, the record apart. */
  lemma {:induction false} RejectionChangesOnlyTheRecord(env: Env, cfg: Resolved, choices: seq<Choice>)
    ensures Run(env, cfg, choices).(last := None) == Run(env, cfg, Kept(env, cfg, choices)).(last := None)
  {
    if choices != [] {
      var before, c := choices[..|choices| - 1], choices[|choices| - 1];
      RejectionChangesOnlyTheRecord(env, cfg, before);
      var w, v := Run(env, cfg, before), Run(env, cfg, Kept(env, cfg, before));
      RunSnoc(env, cfg, Kept(env, cfg, before), c);
      assert v == w.(last := v.last) by {
        assert v.(last := None).(last := v.last) == v;
      }
      if c.ReloadNow? { RecordIsNotRead(env, w, v, c.attempt); }
    }
  }

  /** The outcome and time of the latest attempt of a run. */
  function Latest(env: Env, cfg: Resolved, choices: seq<Choice>): Option<Status> {
    if choices == [] then None
    else
      var before, c := choices[..|choices| - 1], choices[|choices| - 1];
      if c.Traffic? then Latest(env, cfg, before)
      else
        var r := Try(env, Run(env, cfg, before), c.attempt);
        Some(Status(if r.Ok? then None else Some(r.error), c.time))
  }

  /** After any run the record reports the outcome of its latest attempt, and nothing if there was none. */
  lemma {:induction false} RecordReportsLatest(env: Env, cfg: Resolved, choices: seq<Choice>)
    ensures Run(env, cfg, choices).last == Latest(env, cfg, choices)
  {
    if choices != [] { RecordReportsLatest(env, cfg, choices[..|choices| - 1]); }
  }

  function Accepted(env: Env, cfg: Resolved, choices: seq<Choice>): nat {
    if choices == [] then 0
    else
      var before, c := choices[..|choices| - 1], choices[|choices| - 1];
      Accepted(env, cfg, before) + if c.ReloadNow? && Try(env, Run(env, cfg, before), c.attempt).Ok? then 1 else 0
  }

  /** Across a whole run the version counts the accepted reloads, every object retired on the way stays retired and
      out of the registry, and every object that joins later is a fresh one. */
  lemma {:induction false} RetiredForGood(env: Env, cfg: Resolved, earlier: seq<Choice>, later: seq<Choice>)
    requires EnvOk(env) && Valid(env.syntax, cfg) && forall c :: c in earlier + later ==> Honest(env, c)
    ensures Accepted(env, cfg, earlier) <= Accepted(env, cfg, earlier + later)
    ensures Grows(Run(env, cfg, earlier).roster, Run(env, cfg, earlier + later).roster,
                  Accepted(env, cfg, earlier + later) - Accepted(env, cfg, earlier))
  {
    if later == [] {
      assert earlier + later == earlier;
      RunOk(env, cfg, earlier);
    } else {
      var middle, c := earlier + later[..|later| - 1], later[|later| - 1];
      assert (earlier + later)[..|earlier + later| - 1] == middle && earlier + later == middle + [c];
      RetiredForGood(env, cfg, earlier, later[..|later| - 1]);
      RunOk(env, cfg, middle);
      DoGrows(env, cfg, Run(env, cfg, middle), c);
      GrowsTransitive(Run(env, cfg, earlier).roster, Run(env, cfg, middle).roster, Run(env, cfg, earlier + later).roster,
                      Accepted(env, cfg, middle) - Accepted(env, cfg, earlier),
                      Accepted(env, cfg, earlier + later) - Accepted(env, cfg, middle));
    }
  }

  lemma GrowsTransitive(a: Roster, b: Roster, c: Roster, m: nat, n: nat)
    requires Grows(a, b, m) && Grows(b, c, n)
    ensures Grows(a, c, m + n)
  {}
}
