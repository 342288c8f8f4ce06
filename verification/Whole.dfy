/** The reload, accounting, health and circuit systems in one run (internal/app/app.go:226-328).  What App installs is a
    legal step of the accounting, health and circuit runs, and the four agree on live backends and series in every state
    of a joint run. */
module Whole {
  import opened Fleet
  import opened Config
  import opened Registry
  import opened App
  import A = Accounting
  import H = HealthRuns
  import K = CircuitSeries

  /** The accounting run stands where the world does: same live backends, same series, no pointer from the future. */
  ghost predicate Accounts(w: World, s: A.System) {
    s.live == SetOf(w.roster.backends) && s.gauge == w.activeSeries && forall h :: h in s.known ==> h.id < w.roster.nextId
  }

  ghost predicate Judges(w: World, s: H.System) {
    && s.live == SetOf(w.roster.backends) && s.flags.gauge == w.healthySeries && s.probers.Keys == w.probers
    && s.windows.Keys == w.windows && s.flags.healthy == w.roster.healthy && forall h :: h in s.known ==> h.id < w.roster.nextId
  }

  ghost predicate Circuits(w: World, s: K.System) {
    s.live == SetOf(w.roster.backends) && s.series == w.circuitSeries && forall h :: h in s.known ==> h.id < w.roster.nextId
  }

  lemma LiveAfter(r: Roster, n: seq<BackendConfig>, a: Applied)
    requires RosterOk(r) && ReloadedTo(r, n, a)
    ensures SetOf(a.removed) == SetOf(r.backends) - SetOf(a.roster.backends)
    ensures SetOf(a.added) == SetOf(a.roster.backends) - SetOf(r.backends)
    ensures SetOf(r.backends) - SetOf(a.removed) + SetOf(a.added) == SetOf(a.roster.backends)
    ensures NamesApart(SetOf(a.roster.backends))
  {
    NamesAfter(r, n, a);
    forall g, h | g in a.roster.backends && h in a.roster.backends && g.name == h.name
      ensures g == h
    {
      ByNameFinds(a.roster.backends, g.name);
    }
  }

  /** An accepted reload is a legal step of the accounting run, which afterwards stands where the new world does. */
  lemma ReloadAccounts(w: World, cfg: Resolved, a: Applied, s: A.System)
    requires RosterOk(w.roster) && ReloadedTo(w.roster, cfg.backends, a) && Accounts(w, s)
    ensures var c := A.Reload(SetOf(a.removed), SetOf(a.added));
            A.Legal(s, c) && Accounts(Installed(w, cfg, a), A.Do(s, c))
  {
    LiveAfter(w.roster, cfg.backends, a);
    A.SeedsAsReloadDoes(w.activeSeries, a.removed, a.added);
  }

  lemma NamesAgree(s: seq<Handle>)
    ensures NamesOf(s) == Names(SetOf(s))
  {
  }

  /** The series an App reload seeds and deletes, in terms of sets. */
  lemma SeriesOfSets<V>(m: map<string, V>, gone: seq<Handle>, added: seq<Handle>, v: V)
    ensures Seed(Delete(m, gone), added, v) == (m - Names(SetOf(gone))) + map x | x in Names(SetOf(added)) :: v
    ensures Seed(map[], added, v) == map x | x in Names(SetOf(added)) :: v
  {
    NamesAgree(gone);
    NamesAgree(added);
  }

  /** And of the health run. */
  lemma ReloadJudges(n: nat, w: World, cfg: Resolved, a: Applied, s: H.System)
    requires RosterOk(w.roster) && ReloadedTo(w.roster, cfg.backends, a) && Judges(w, s)
    requires forall h :: h in w.roster.healthy ==> h.id < w.roster.nextId
    ensures var c := H.Swap(SetOf(a.removed), SetOf(a.added));
            H.Legal(s, c) && Judges(Installed(w, cfg, a), H.Do(n, s, c))
  {
    LiveAfter(w.roster, cfg.backends, a);
    NamesAgree(a.removed);
    NamesAgree(a.added);
  }

  /** And of the circuit run. */
  lemma ReloadCircuits(w: World, cfg: Resolved, a: Applied, s: K.System)
    requires RosterOk(w.roster) && ReloadedTo(w.roster, cfg.backends, a) && Circuits(w, s)
    ensures var c := K.Replace(SetOf(a.removed), SetOf(a.added));
            K.Legal(s, c) && forall cooldown :: Circuits(Installed(w, cfg, a), K.Do(cooldown, s, c))
  {
    LiveAfter(w.roster, cfg.backends, a);
    SeriesOfSets(w.circuitSeries, a.removed, a.added, C.Closed);
  }

  /** So every accepted reload of a world that both runs agree with advances each by one legal step. */
  lemma EveryReloadIsLegal(env: Env, startup: Resolved, w: World, cfg: Resolved, s: A.System, t: H.System, n: nat) returns (a: Applied)
    requires EnvOk(env) && WorldOk(env, startup, w) && Valid(env.syntax, cfg) && SameNonBackend(w.loaded, cfg)
    requires Accounts(w, s) && Judges(w, t)
    ensures ReloadTo(env, w, cfg) == Ok(Installed(w, cfg, a)) && ReloadedTo(w.roster, cfg.backends, a)
    ensures WorldOk(env, startup, Installed(w, cfg, a))
    ensures A.Legal(s, A.Reload(SetOf(a.removed), SetOf(a.added))) && H.Legal(t, H.Swap(SetOf(a.removed), SetOf(a.added)))
    ensures Accounts(Installed(w, cfg, a), A.Do(s, A.Reload(SetOf(a.removed), SetOf(a.added))))
    ensures Judges(Installed(w, cfg, a), H.Do(n, t, H.Swap(SetOf(a.removed), SetOf(a.added))))
  {
    a := ReloadStep(env, startup, w, cfg);
    ReloadAccounts(w, cfg, a, s);
    ReloadJudges(n, w, cfg, a, t);
  }

  // ---------- joint runs ----------

  /** The four systems side by side, with the choices each has taken. */
  datatype Joint = Joint(world: World, accounts: A.System, health: H.System, circuits: K.System,
                         accounted: seq<A.Choice>, judged: seq<H.Choice>, called: seq<K.Choice>)

  datatype Choice = Attempted(attempt: Attempt, time: int) | Account(a: A.Choice) | Judge(h: H.Choice) | Break(k: K.Choice)

  function Gone(w: World, w': World): set<Handle> {
    SetOf(w.roster.backends) - SetOf(w'.roster.backends)
  }

  function Accounted(j: Joint, c: A.Choice): Joint {
    var s := A.Do(j.accounts, c);
    j.(accounts := s, accounted := j.accounted + [c], world := j.world.(activeSeries := s.gauge))
  }

  /** What probes and observations write. */
  function Flagged(w: World, t: H.System): World {
    w.(healthySeries := t.flags.gauge, windows := t.windows.Keys, roster := w.roster.(healthy := t.flags.healthy))
  }

  function Judged(n: nat, j: Joint, c: H.Choice): Joint {
    var t := H.Do(n, j.health, c);
    j.(health := t, judged := j.judged + [c], world := Flagged(j.world, t))
  }

  function Broken(cooldown: int, j: Joint, c: K.Choice): Joint {
    var k := K.Do(cooldown, j.circuits, c);
    j.(circuits := k, called := j.called + [c], world := j.world.(circuitSeries := k.series))
  }

  function Reloaded(n: nat, cooldown: int, j: Joint, w: World): Joint {
    var gone, come := Gone(j.world, w), Gone(w, j.world);
    Joint(w, A.Do(j.accounts, A.Reload(gone, come)), H.Do(n, j.health, H.Swap(gone, come)),
          K.Do(cooldown, j.circuits, K.Replace(gone, come)),
          j.accounted + [A.Reload(gone, come)], j.judged + [H.Swap(gone, come)], j.called + [K.Replace(gone, come)])
  }

  /** An accepted attempt steps all four; a rejected one only its record; a request, drain, probe, observation or breaker
      call only its own system, if legal there. */
  function Step(env: Env, n: nat, cooldown: int, j: Joint, c: Choice): Joint {
    match c
    case Attempted(attempt, time) =>
      var w := Reload(env, j.world, attempt, time);
      if Try(env, j.world, attempt).Ok? then Reloaded(n, cooldown, j, w) else j.(world := w)
    case Account(a) => if !a.Reload? && A.Legal(j.accounts, a) then Accounted(j, a) else j
    case Judge(h) => if !h.Swap? then Judged(n, j, h) else j
    case Break(k) => if !k.Replace? then Broken(cooldown, j, k) else j
  }

  function Fleet0(cfg: Resolved): set<Handle> {
    SetOf(Start(cfg).roster.backends)
  }

  function StartJoint(cfg: Resolved): Joint {
    Joint(Start(cfg), A.Start(Fleet0(cfg)), H.Start(Fleet0(cfg)), K.Start(Fleet0(cfg)), [], [], [])
  }

  /** The cooldown is the startup one: no accepted reload changes it. */
  function RunJoint(env: Env, cfg: Resolved, choices: seq<Choice>): Joint {
    if choices == [] then StartJoint(cfg)
    else Step(env, |Fleet0(cfg)|, cfg.cooldown, RunJoint(env, cfg, choices[..|choices| - 1]), choices[|choices| - 1])
  }

  predicate HonestChoice(env: Env, c: Choice) {
    c.Attempted? && c.attempt.Validated? ==> Valid(env.syntax, c.attempt.cfg)
  }

  /** The accounting system stands where its own legal run brought it, and the world agrees with it. */
  ghost predicate AccountsRun(fleet: set<Handle>, w: World, s: A.System, run: seq<A.Choice>) {
    A.LegalRun(A.Start(fleet), run) && s == A.Exec(A.Start(fleet), run) && Accounts(w, s)
  }

  ghost predicate HealthRun(fleet: set<Handle>, w: World, s: H.System, run: seq<H.Choice>) {
    H.LegalRun(|fleet|, H.Start(fleet), run) && s == H.Exec(|fleet|, H.Start(fleet), run) && Judges(w, s)
  }

  ghost predicate CircuitsRun(cooldown: int, fleet: set<Handle>, w: World, s: K.System, run: seq<K.Choice>) {
    K.LegalRun(cooldown, K.Start(fleet), run) && s == K.Exec(cooldown, K.Start(fleet), run) && Circuits(w, s)
  }

  ghost predicate Together(env: Env, cfg: Resolved, j: Joint) {
    && NamesApart(Fleet0(cfg)) && WorldOk(env, cfg, j.world)
    && AccountsRun(Fleet0(cfg), j.world, j.accounts, j.accounted)
    && HealthRun(Fleet0(cfg), j.world, j.health, j.judged)
    && CircuitsRun(cfg.cooldown, Fleet0(cfg), j.world, j.circuits, j.called)
  }

  lemma LiveNamesApart(r: Roster)
    requires RosterOk(r)
    ensures NamesApart(SetOf(r.backends))
  {
    forall g, h | g in r.backends && h in r.backends && g.name == h.name
      ensures g == h
    {
      ByNameFinds(r.backends, g.name);
    }
  }

  lemma StartAccounts(cfg: Resolved)
    ensures AccountsRun(Fleet0(cfg), Start(cfg), A.Start(Fleet0(cfg)), [])
  {
    HandlesFromConfigs(cfg.backends);
    NamesAgree(Start(cfg).roster.backends);
  }

  lemma StartJudges(cfg: Resolved)
    ensures HealthRun(Fleet0(cfg), Start(cfg), H.Start(Fleet0(cfg)), [])
  {
    HandlesFromConfigs(cfg.backends);
    SeriesOfSets(map[], [], Start(cfg).roster.backends, true);
  }

  lemma StartCircuits(cfg: Resolved)
    ensures CircuitsRun(cfg.cooldown, Fleet0(cfg), Start(cfg), K.Start(Fleet0(cfg)), [])
  {
    HandlesFromConfigs(cfg.backends);
    SeriesOfSets(map[], [], Start(cfg).roster.backends, C.Closed);
  }

  lemma StartTogether(env: Env, cfg: Resolved)
    requires Valid(env.syntax, cfg)
    ensures Together(env, cfg, StartJoint(cfg))
  {
    StartOk(env, cfg);
    LiveNamesApart(Start(cfg).roster);
    StartAccounts(cfg);
    StartJudges(cfg);
    StartCircuits(cfg);
  }

  /** Requests and drains leave the live set alone and keep a series for every live name. */
  lemma AccountFacts(fleet: set<Handle>, run: seq<A.Choice>, c: A.Choice)
    requires NamesApart(fleet) && A.LegalRun(A.Start(fleet), run) && !c.Reload? && A.Legal(A.Exec(A.Start(fleet), run), c)
    ensures var s, s' := A.Exec(A.Start(fleet), run), A.Exec(A.Start(fleet), run + [c]);
            && A.LegalRun(A.Start(fleet), run + [c]) && s' == A.Do(s, c)
            && s'.live == s.live && s'.known == s.known && Names(s.live) <= s'.gauge.Keys
  {
    A.ExecSnoc(A.Start(fleet), run, c);
    A.ActiveCountsRequests(fleet, run + [c]);
  }

  lemma ActiveKeepsWorld(env: Env, startup: Resolved, w: World, active: map<string, int>)
    requires WorldOk(env, startup, w) && NamesOf(w.roster.backends) <= active.Keys
    ensures WorldOk(env, startup, w.(activeSeries := active))
  {
  }

  lemma AccountTogether(env: Env, cfg: Resolved, j: Joint, c: A.Choice)
    requires Together(env, cfg, j) && !c.Reload? && A.Legal(j.accounts, c)
    ensures Together(env, cfg, Accounted(j, c))
  {
    AccountFacts(Fleet0(cfg), j.accounted, c);
    NamesAgree(j.world.roster.backends);
    ActiveKeepsWorld(env, cfg, j.world, A.Do(j.accounts, c).gauge);
  }

  /** Probes and observations leave the live set, the probers and the series' names alone. */
  lemma JudgeFacts(fleet: set<Handle>, run: seq<H.Choice>, c: H.Choice)
    requires NamesApart(fleet) && H.LegalRun(|fleet|, H.Start(fleet), run) && !c.Swap?
    ensures var t, t' := H.Exec(|fleet|, H.Start(fleet), run), H.Exec(|fleet|, H.Start(fleet), run + [c]);
            && H.LegalRun(|fleet|, H.Start(fleet), run + [c]) && t' == H.Do(|fleet|, t, c)
            && t'.live == t.live && t'.known == t.known && t'.probers.Keys == t.live && t'.flags.healthy <= t.known
            && t'.flags.gauge.Keys == Names(t.live) && t'.windows.Keys <= t.live
  {
    H.ExecSnoc(|fleet|, H.Start(fleet), run, c);
    H.GaugeAgreesInEveryRun(fleet, run + [c]);
  }

  lemma FlagsKeepWorld(env: Env, startup: Resolved, w: World, t: H.System)
    requires WorldOk(env, startup, w) && t.flags.gauge.Keys == NamesOf(w.roster.backends)
    requires t.windows.Keys <= w.probers && forall h :: h in t.flags.healthy ==> h.id < w.roster.nextId
    ensures WorldOk(env, startup, Flagged(w, t))
  {
    assert RosterOk(w.roster.(healthy := t.flags.healthy));
  }

  lemma JudgeTogether(env: Env, cfg: Resolved, j: Joint, c: H.Choice)
    requires Together(env, cfg, j) && !c.Swap?
    ensures Together(env, cfg, Judged(|Fleet0(cfg)|, j, c))
  {
    JudgeFacts(Fleet0(cfg), j.judged, c);
    NamesAgree(j.world.roster.backends);
    FlagsKeepWorld(env, cfg, j.world, H.Do(|Fleet0(cfg)|, j.health, c));
  }

  /** Breaker calls leave the live set and the series' names alone. */
  lemma BreakFacts(cooldown: int, fleet: set<Handle>, run: seq<K.Choice>, c: K.Choice)
    requires NamesApart(fleet) && K.LegalRun(cooldown, K.Start(fleet), run) && !c.Replace?
    ensures var k, k' := K.Exec(cooldown, K.Start(fleet), run), K.Exec(cooldown, K.Start(fleet), run + [c]);
            && K.LegalRun(cooldown, K.Start(fleet), run + [c]) && k' == K.Do(cooldown, k, c)
            && k'.live == k.live && k'.known == k.known && k'.series.Keys == Names(k.live)
  {
    K.ExecSnoc(cooldown, K.Start(fleet), run, c);
    K.SeriesReadInEveryRun(cooldown, fleet, run + [c]);
  }

  lemma CircuitsKeepWorld(env: Env, startup: Resolved, w: World, series: map<string, C.State>)
    requires WorldOk(env, startup, w) && series.Keys == NamesOf(w.roster.backends)
    ensures WorldOk(env, startup, w.(circuitSeries := series))
  {
  }

  lemma BreakTogether(env: Env, cfg: Resolved, j: Joint, c: K.Choice)
    requires Together(env, cfg, j) && !c.Replace?
    ensures Together(env, cfg, Broken(cfg.cooldown, j, c))
  {
    BreakFacts(cfg.cooldown, Fleet0(cfg), j.called, c);
    NamesAgree(j.world.roster.backends);
    CircuitsKeepWorld(env, cfg, j.world, K.Do(cfg.cooldown, j.circuits, c).series);
  }

  lemma RecordTogether(env: Env, cfg: Resolved, j: Joint, last: Option<Status>)
    requires Together(env, cfg, j)
    ensures Together(env, cfg, j.(world := j.world.(last := last)))
  {
  }

  lemma InstallTogether(env: Env, cfg: Resolved, j: Joint, next: Resolved)
    requires EnvOk(env) && Together(env, cfg, j) && Valid(env.syntax, next) && SameNonBackend(j.world.loaded, next)
    ensures ReloadTo(env, j.world, next).Ok?
    ensures Together(env, cfg, Reloaded(|Fleet0(cfg)|, cfg.cooldown, j, ReloadTo(env, j.world, next).value))
  {
    var fleet, n := Fleet0(cfg), |Fleet0(cfg)|;
    var a := EveryReloadIsLegal(env, cfg, j.world, next, j.accounts, j.health, n);
    ReloadCircuits(j.world, next, a, j.circuits);
    LiveAfter(j.world.roster, next.backends, a);
    A.ExecSnoc(A.Start(fleet), j.accounted, A.Reload(SetOf(a.removed), SetOf(a.added)));
    H.ExecSnoc(n, H.Start(fleet), j.judged, H.Swap(SetOf(a.removed), SetOf(a.added)));
    K.ExecSnoc(cfg.cooldown, K.Start(fleet), j.called, K.Replace(SetOf(a.removed), SetOf(a.added)));
  }

  lemma AttemptTogether(env: Env, cfg: Resolved, j: Joint, attempt: Attempt, time: int)
    requires EnvOk(env) && Together(env, cfg, j) && HonestChoice(env, Attempted(attempt, time))
    ensures Together(env, cfg, Step(env, |Fleet0(cfg)|, cfg.cooldown, j, Attempted(attempt, time)))
  {
    var r := Try(env, j.world, attempt);
    if r.Err? {
      RecordTogether(env, cfg, j, Some(Status(Some(r.error), time)));
    } else {
      var next := if attempt.Document? then Resolve(attempt.doc.value) else attempt.cfg;
      assert r == ReloadTo(env, j.world, next);
      InstallTogether(env, cfg, j, next);
      RecordTogether(env, cfg, Reloaded(|Fleet0(cfg)|, cfg.cooldown, j, r.value), Some(Status(None, time)));
    }
  }

  lemma StepTogether(env: Env, cfg: Resolved, j: Joint, c: Choice)
    requires EnvOk(env) && Together(env, cfg, j) && HonestChoice(env, c)
    ensures Together(env, cfg, Step(env, |Fleet0(cfg)|, cfg.cooldown, j, c))
  {
    match c
    case Attempted(attempt, time) => AttemptTogether(env, cfg, j, attempt, time);
    case Account(a) => if !a.Reload? && A.Legal(j.accounts, a) { AccountTogether(env, cfg, j, a); }
    case Judge(h) => if !h.Swap? { JudgeTogether(env, cfg, j, h); }
    case Break(k) => if !k.Replace? { BreakTogether(env, cfg, j, k); }
  }

  /** In every joint run of reload attempts, requests, drains, probes, observations and breaker calls, the world agrees with
      the three other systems, each of which stands where a legal run of its own leads; so all that is proved of those runs
      holds of this one. */
  lemma {:induction false} JointRunsAgree(env: Env, cfg: Resolved, choices: seq<Choice>)
    requires EnvOk(env) && Valid(env.syntax, cfg) && forall c :: c in choices ==> HonestChoice(env, c)
    ensures Together(env, cfg, RunJoint(env, cfg, choices))
  {
    if choices == [] {
      StartTogether(env, cfg);
    } else {
      var before, c := choices[..|choices| - 1], choices[|choices| - 1];
      assert choices == before + [c];
      JointRunsAgree(env, cfg, before);
      StepTogether(env, cfg, RunJoint(env, cfg, before), c);
    }
  }

  /** In particular: in every joint run the health series of every live backend equals its bit, the active series equals the
      sum over live and draining instances exactly as long as every step was safe, and ActiveConns counts the requests. */
  lemma JointSeriesAgree(env: Env, cfg: Resolved, choices: seq<Choice>)
    requires EnvOk(env) && Valid(env.syntax, cfg) && forall c :: c in choices ==> HonestChoice(env, c)
    ensures var j := RunJoint(env, cfg, choices);
            && (forall h :: h in j.world.roster.backends ==>
                  h.name in j.world.healthySeries && j.world.healthySeries[h.name] == (h in j.world.roster.healthy))
            && A.CountsRequests(j.accounts)
            && (A.AgreesThroughout(A.Start(Fleet0(cfg)), j.accounted) <==> A.SafeThroughout(A.Start(Fleet0(cfg)), j.accounted))
  {
    JointRunsAgree(env, cfg, choices);
    var j := RunJoint(env, cfg, choices);
    A.ActiveCountsRequests(Fleet0(cfg), j.accounted);
    A.GaugeIsSumExactlyWhenSafe(Fleet0(cfg), j.accounted);
    H.GaugeAgreesInEveryRun(Fleet0(cfg), j.judged);
    assert forall h :: h in j.world.roster.backends ==> h in j.health.live;
  }

  /** And the circuit series of every live backend reads its state, except that it reads open while half-open after a
      promotion won by a scan; no other name has a series. */
  lemma JointCircuitsRead(env: Env, cfg: Resolved, choices: seq<Choice>)
    requires EnvOk(env) && Valid(env.syntax, cfg) && forall c :: c in choices ==> HonestChoice(env, c)
    ensures var j := RunJoint(env, cfg, choices);
            && j.world.circuitSeries.Keys == NamesOf(j.world.roster.backends)
            && forall h :: h in j.world.roster.backends ==>
                 h in j.circuits.snaps && h.name in j.world.circuitSeries &&
                 j.world.circuitSeries[h.name] == K.Read(j.circuits.snaps[h].state, h in j.circuits.scanWon)
  {
    JointRunsAgree(env, cfg, choices);
    var j := RunJoint(env, cfg, choices);
    K.SeriesReadInEveryRun(cfg.cooldown, Fleet0(cfg), j.called);
    NamesAgree(j.world.roster.backends);
    assert forall h :: h in j.world.roster.backends ==> h in j.circuits.live;
  }
}
