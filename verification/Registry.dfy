/** The backend registry (internal/backend/registry.go): the published snapshot and Apply.  Backend
    objects are handles; the flags they carry are sets of handles. */
module Registry {
  import opened Fleet
  import opened Seqs
  import opened Config

  /** The published version and backend list, the objects retired so far, the healthy ones, and the next unused
      pointer. */
  datatype Roster = Roster(version: nat, backends: seq<Handle>, removed: set<Handle>, healthy: set<Handle>, nextId: nat)

  datatype ApplyError = BadUrl | KeptNotPresent | NeitherAddedNorKept

  datatype Applied = Applied(roster: Roster, added: seq<Handle>, removed: seq<Handle>)

  /** A list under construction, the objects created for it, and the next unused pointer. */
  datatype Build = Build(next: seq<Handle>, added: seq<Handle>, nextId: nat)

  function ConfigOf(h: Handle): BackendConfig {
    BackendConfig(h.name, h.url)
  }

  function ConfigsOf(s: seq<Handle>): seq<BackendConfig> {
    seq(|s|, i requires 0 <= i < |s| => ConfigOf(s[i]))
  }

  /** The name map's entry: a later backend of the same name overwrites an earlier one. */
  function ByName(s: seq<Handle>, name: string): Option<Handle> {
    if s == [] then None
    else if s[|s| - 1].name == name then Some(s[|s| - 1])
    else ByName(s[..|s| - 1], name)
  }

  function BuildNext(r: Roster, diff: BackendDiff, news: seq<BackendConfig>, parses: string -> bool): Result<Build, ApplyError> {
    if news == [] then Ok(Build([], [], r.nextId))
    else
      var before := BuildNext(r, diff, news[..|news| - 1], parses);
      if before.Err? then before
      else
        var Build(next, added, id) := before.value;
        var cfg := news[|news| - 1];
        if Identity(cfg) in Identities(diff.added) then
          if !parses(cfg.url) then Err(BadUrl)
          else var h := Handle(id, cfg.name, cfg.url); Ok(Build(next + [h], added + [h], id + 1))
        else if Identity(cfg) in Identities(diff.kept) then
          var h := ByName(r.backends, cfg.name);
          if h.None? then Err(KeptNotPresent) else Ok(Build(next + [h.value], added, id))
        else Err(NeitherAddedNorKept)
  }

  /** The current objects the removed entries name, in their order. */
  function Named(s: seq<Handle>, cfgs: seq<BackendConfig>): seq<Handle> {
    if cfgs == [] then []
    else
      var h := ByName(s, cfgs[|cfgs| - 1].name);
      Named(s, cfgs[..|cfgs| - 1]) + if h.Some? then [h.value] else []
  }

  function SetOf(s: seq<Handle>): set<Handle> {
    set h | h in s
  }

  function ApplyDiff(r: Roster, diff: BackendDiff, news: seq<BackendConfig>, parses: string -> bool): Result<Applied, ApplyError> {
    var built := BuildNext(r, diff, news, parses);
    if built.Err? then Err(built.error)
    else
      var gone := Named(r.backends, diff.removed);
      Ok(Applied(
           Roster(r.version + 1, built.value.next, r.removed + SetOf(gone), r.healthy - SetOf(built.value.added), built.value.nextId),
           built.value.added, gone))
  }

  class Registry {
    var version: nat
    var backends: seq<Handle>
    var removed: set<Handle>
    var healthy: set<Handle>
    var nextId: nat

    function View(): Roster
      reads this
    {
      Roster(version, backends, removed, healthy, nextId)
    }

    /** Startup: every backend healthy, version 1. */
    constructor (cfgs: seq<BackendConfig>)
      ensures View() == FirstRoster(cfgs)
      ensures version == 1 && ConfigsOf(backends) == cfgs && healthy == SetOf(backends) && removed == {}
      ensures forall i :: 0 <= i < |backends| ==> backends[i].id == i < nextId
    {
      var hs := [];
      for i := 0 to |cfgs|
        invariant hs == HandlesFrom(cfgs[..i], 0)
        invariant ConfigsOf(hs) == cfgs[..i] && forall j :: 0 <= j < i ==> hs[j].id == j
      {
        assert cfgs[..i + 1][..i] == cfgs[..i];
        hs := hs + [Handle(i, cfgs[i].name, cfgs[i].url)];
      }
      assert cfgs[..|cfgs|] == cfgs;
      version, backends, removed, healthy, nextId := 1, hs, {}, SetOf(hs), |cfgs|;
    }

    /** Apply's first loop. */
    method NameMap() returns (byName: map<string, Handle>)
      ensures forall n :: ByName(backends, n) == if n in byName then Some(byName[n]) else None
    {
      byName := map[];
      for i := 0 to |backends|
        invariant forall n :: ByName(backends[..i], n) == if n in byName then Some(byName[n]) else None
      {
        assert backends[..i + 1][..i] == backends[..i];
        byName := byName[backends[i].name := backends[i]];
      }
      assert backends[..|backends|] == backends;
    }

    /** Apply's second loop: the new list, built aside. */
    method BuildList(byName: map<string, Handle>, diff: BackendDiff, news: seq<BackendConfig>, parses: string -> bool)
      returns (r: Result<Build, ApplyError>)
      requires forall n :: ByName(backends, n) == if n in byName then Some(byName[n]) else None
      ensures r == BuildNext(View(), diff, news, parses)
    {
      var addedIds := BackendIdentities(diff.added);
      var keptIds := BackendIdentities(diff.kept);
      var next, added, id := [], [], nextId;
      for i := 0 to |news|
        invariant BuildNext(View(), diff, news[..i], parses) == Ok(Build(next, added, id))
      {
        var cfg := news[i];
        assert news[..i + 1][..i] == news[..i];
        if Identity(cfg) in addedIds {
          if !parses(cfg.url) {
            BuildFails(View(), diff, news, parses, i + 1);
            return Err(BadUrl);
          }
          var h := Handle(id, cfg.name, cfg.url);
          next, added, id := next + [h], added + [h], id + 1;
        } else if Identity(cfg) in keptIds {
          if cfg.name !in byName {
            BuildFails(View(), diff, news, parses, i + 1);
            return Err(KeptNotPresent);
          }
          next := next + [byName[cfg.name]];
        } else {
          BuildFails(View(), diff, news, parses, i + 1);
          return Err(NeitherAddedNorKept);
        }
      }
      assert news[..|news|] == news;
      return Ok(Build(next, added, id));
    }

    /** Apply's third loop: retire the objects the removed entries name. */
    method MarkRemoved(byName: map<string, Handle>, cfgs: seq<BackendConfig>) returns (gone: seq<Handle>)
      requires forall n :: ByName(backends, n) == if n in byName then Some(byName[n]) else None
      modifies this`removed
      ensures gone == Named(backends, cfgs) && removed == old(removed) + SetOf(gone)
    {
      gone := [];
      for i := 0 to |cfgs|
        invariant gone == Named(backends, cfgs[..i]) && removed == old(removed) + SetOf(gone)
      {
        assert cfgs[..i + 1][..i] == cfgs[..i];
        var name := cfgs[i].name;
        if name in byName {
          removed := removed + {byName[name]};
          gone := gone + [byName[name]];
        }
      }
      assert cfgs[..|cfgs|] == cfgs;
    }

    /** Replaces the backend set by the one the diff describes, in the new file's order; a created object is marked
        unhealthy before the list is published.  On an error nothing changes. */
    method Apply(diff: BackendDiff, news: seq<BackendConfig>, parses: string -> bool) returns (r: Result<Applied, ApplyError>)
      modifies this
      ensures r == ApplyDiff(old(View()), diff, news, parses)
      ensures View() == if r.Ok? then r.value.roster else old(View())
    {
      var byName := NameMap();
      var built := BuildList(byName, diff, news, parses);
      if built.Err? { return Err(built.error); }
      var gone := MarkRemoved(byName, diff.removed);
      version, backends, nextId := version + 1, built.value.next, built.value.nextId;
      healthy := healthy - SetOf(built.value.added);
      return Ok(Applied(View(), built.value.added, gone));
    }
  }

  function HandlesFrom(cfgs: seq<BackendConfig>, id: nat): seq<Handle> {
    if cfgs == [] then []
    else HandlesFrom(cfgs[..|cfgs| - 1], id) + [Handle(id + |cfgs| - 1, cfgs[|cfgs| - 1].name, cfgs[|cfgs| - 1].url)]
  }

  function FirstRoster(cfgs: seq<BackendConfig>): Roster {
    var hs := HandlesFrom(cfgs, 0);
    Roster(1, hs, {}, SetOf(hs), |cfgs|)
  }

  lemma {:induction false} BuildFails(r: Roster, diff: BackendDiff, news: seq<BackendConfig>, parses: string -> bool, i: nat)
    requires i <= |news| && BuildNext(r, diff, news[..i], parses).Err?
    ensures BuildNext(r, diff, news, parses) == BuildNext(r, diff, news[..i], parses)
    decreases |news|
  {
    if i == |news| {
      assert news[..i] == news;
    } else {
      var init := news[..|news| - 1];
      assert init[..i] == news[..i];
      BuildFails(r, diff, init, parses, i);
    }
  }

  // ---------- why an apply fails, for any diff ----------

  predicate Listed(s: seq<BackendConfig>, cfg: BackendConfig) {
    exists b :: b in s && b.name + "\0" + b.url == cfg.name + "\0" + cfg.url
  }

  /** What is wrong with one entry of the new list: it is to be added and its URL does not parse, it is to be kept and no
      backend has its name, or the diff does neither. */
  predicate EntryFails(r: Roster, diff: BackendDiff, parses: string -> bool, cfg: BackendConfig, e: ApplyError) {
    match e
    case BadUrl => Listed(diff.added, cfg) && !parses(cfg.url)
    case KeptNotPresent => !Listed(diff.added, cfg) && Listed(diff.kept, cfg) && forall h :: h in r.backends ==> h.name != cfg.name
    case NeitherAddedNorKept => !Listed(diff.added, cfg) && !Listed(diff.kept, cfg)
  }

  predicate EntryBuilds(r: Roster, diff: BackendDiff, parses: string -> bool, cfg: BackendConfig) {
    forall e :: !EntryFails(r, diff, parses, cfg, e)
  }

  lemma ListedByKey(s: seq<BackendConfig>, cfg: BackendConfig)
    ensures Listed(s, cfg) <==> Identity(cfg) in Identities(s)
  {
    if b :| b in s && b.name + "\0" + b.url == cfg.name + "\0" + cfg.url { assert Identity(b) == Identity(cfg); }
    if Identity(cfg) in Identities(s) {
      var b :| b in s && Identity(b) == Identity(cfg);
      assert b.name + "\0" + b.url == cfg.name + "\0" + cfg.url;
    }
  }

  lemma {:induction false} ByNameMissing(s: seq<Handle>, name: string)
    ensures ByName(s, name).None? <==> forall h :: h in s ==> h.name != name
  {
    if s != [] {
      assert s == s[..|s| - 1] + [s[|s| - 1]];
      ByNameMissing(s[..|s| - 1], name);
    }
  }

  /** One more entry, after entries that all build. */
  lemma NextEntry(r: Roster, diff: BackendDiff, init: seq<BackendConfig>, cfg: BackendConfig, parses: string -> bool)
    requires BuildNext(r, diff, init, parses).Ok?
    ensures var b := BuildNext(r, diff, init + [cfg], parses);
            if b.Ok? then EntryBuilds(r, diff, parses, cfg)
            else EntryFails(r, diff, parses, cfg, b.error) && !EntryBuilds(r, diff, parses, cfg)
                 && forall e :: EntryFails(r, diff, parses, cfg, e) ==> e == b.error
  {
    assert (init + [cfg])[..|init|] == init;
    ListedByKey(diff.added, cfg);
    ListedByKey(diff.kept, cfg);
    ByNameMissing(r.backends, cfg.name);
  }

  /** Entry i is the first that fails. */
  predicate FailsFirst(r: Roster, diff: BackendDiff, news: seq<BackendConfig>, parses: string -> bool, i: int) {
    && 0 <= i < |news| && !EntryBuilds(r, diff, parses, news[i])
    && forall j :: 0 <= j < i ==> EntryBuilds(r, diff, parses, news[j])
  }

  /** Whatever the diff, the list is built exactly when every entry is; otherwise the error is that of the first entry that is
      not. */
  lemma {:induction false} FirstFailureReported(r: Roster, diff: BackendDiff, news: seq<BackendConfig>, parses: string -> bool)
    returns (i: int)
    ensures var b := BuildNext(r, diff, news, parses);
            && (b.Ok? <==> forall cfg :: cfg in news ==> EntryBuilds(r, diff, parses, cfg))
            && (b.Err? ==> FailsFirst(r, diff, news, parses, i) && EntryFails(r, diff, parses, news[i], b.error))
  {
    i := 0;
    if news != [] {
      var init, last := news[..|news| - 1], news[|news| - 1];
      assert news == init + [last];
      i := FirstFailureReported(r, diff, init, parses);
      if BuildNext(r, diff, init, parses).Ok? {
        NextEntry(r, diff, init, last, parses);
        i := |init|;
        assert news[i] == last && last in news;
        assert forall j :: 0 <= j < i ==> news[j] == init[j] && news[j] in init;
      } else {
        assert news[i] == init[i] && news[i] in news;
      }
    }
  }

  // ---------- what one reload does to a consistent roster ----------

  /** The invariant of every run: names and pointers are unique, live and retired objects are disjoint. */
  predicate RosterOk(r: Roster) {
    && DistinctNames(ConfigsOf(r.backends)) && NulFree(ConfigsOf(r.backends))
    && (forall h :: h in r.backends ==> h.id < r.nextId && h !in r.removed)
    && (forall h :: h in r.removed ==> h.id < r.nextId)
  }

  lemma {:induction false} ByNameFinds(s: seq<Handle>, name: string)
    requires DistinctNames(ConfigsOf(s))
    ensures var h := ByName(s, name);
            && (h.Some? ==> h.value in s && h.value.name == name)
            && (forall x :: x in s && x.name == name ==> h == Some(x))
  {
    if s != [] {
      var init, last := s[..|s| - 1], s[|s| - 1];
      assert s == init + [last];
      assert DistinctNames(ConfigsOf(init)) by {
        assert ConfigsOf(init) == ConfigsOf(s)[..|init|];
      }
      ByNameFinds(init, name);
      forall x | x in init ensures x.name != last.name {
        var i :| 0 <= i < |init| && init[i] == x;
        assert ConfigsOf(s)[i].name == x.name && ConfigsOf(s)[|init|].name == last.name;
      }
    }
  }

  /** The live object of a configuration entry. */
  predicate Serves(r: Roster, h: Handle, cfg: BackendConfig) {
    h in r.backends && ConfigOf(h) == cfg
  }

  lemma ConfigIn(s: seq<Handle>, cfg: BackendConfig)
    ensures cfg in ConfigsOf(s) <==> exists h :: h in s && ConfigOf(h) == cfg
  {
    if cfg in ConfigsOf(s) {
      var i :| 0 <= i < |s| && ConfigsOf(s)[i] == cfg;
      assert s[i] in s && ConfigOf(s[i]) == cfg;
    }
    if h :| h in s && ConfigOf(h) == cfg {
      var i :| 0 <= i < |s| && s[i] == h;
      assert ConfigsOf(s)[i] == cfg;
    }
  }

  /** What one more entry of the new list adds to the list under construction. */
  function Extended(r: Roster, b: Build, cfg: BackendConfig): Build {
    if cfg in ConfigsOf(r.backends) then
      var h := ByName(r.backends, cfg.name);
      Build(b.next + (if h.Some? then [h.value] else []), b.added, b.nextId)
    else
      var h := Handle(b.nextId, cfg.name, cfg.url);
      Build(b.next + [h], b.added + [h], b.nextId + 1)
  }

  /** The diff's two key sets sort an entry of the new list by whether it was there before. */
  lemma Classified(o: seq<BackendConfig>, n: seq<BackendConfig>, cfg: BackendConfig)
    requires NulFree(n) && cfg in n
    ensures Identity(cfg) in Identities(Diff(o, n).added) <==> cfg !in o
    ensures Identity(cfg) in Identities(Diff(o, n).kept) <==> cfg in o
  {
    IdentityMembership(Diff(o, n).added, cfg);
    IdentityMembership(Diff(o, n).kept, cfg);
  }

  lemma LiveEntry(r: Roster, cfg: BackendConfig)
    requires RosterOk(r) && cfg in ConfigsOf(r.backends)
    ensures ByName(r.backends, cfg.name).Some? && Serves(r, ByName(r.backends, cfg.name).value, cfg)
  {
    ConfigIn(r.backends, cfg);
    ByNameFinds(r.backends, cfg.name);
  }

  lemma BuildEntry(r: Roster, n: seq<BackendConfig>, parses: string -> bool, prefix: seq<BackendConfig>, cfg: BackendConfig)
    requires RosterOk(r) && NulFree(n) && cfg in n && parses(cfg.url)
    requires BuildNext(r, Diff(ConfigsOf(r.backends), n), prefix, parses).Ok?
    ensures var diff := Diff(ConfigsOf(r.backends), n);
            BuildNext(r, diff, prefix + [cfg], parses) == Ok(Extended(r, BuildNext(r, diff, prefix, parses).value, cfg))
  {
    assert (prefix + [cfg])[..|prefix|] == prefix;
    Classified(ConfigsOf(r.backends), n, cfg);
    if cfg in ConfigsOf(r.backends) { LiveEntry(r, cfg); }
  }

  /** For a diff of two valid lists, the list under construction follows the new order, reuses the object of every kept
      entry and creates a fresh one for every added entry. */
  lemma {:induction false} BuildOfDiff(r: Roster, n: seq<BackendConfig>, parses: string -> bool, i: nat)
    requires RosterOk(r) && NulFree(n) && i <= |n| && forall b :: b in n ==> parses(b.url)
    ensures var built := BuildNext(r, Diff(ConfigsOf(r.backends), n), n[..i], parses);
            built.Ok? && BuiltOk(r, n[..i], built.value)
  {
    if i > 0 {
      var prefix, cfg := n[..i - 1], n[i - 1];
      assert n[..i] == prefix + [cfg] && cfg in n;
      BuildOfDiff(r, n, parses, i - 1);
      BuildEntry(r, n, parses, prefix, cfg);
      var b := BuildNext(r, Diff(ConfigsOf(r.backends), n), prefix, parses).value;
      BuiltStep(r, prefix, cfg, b);
      if cfg in ConfigsOf(r.backends) { LiveEntry(r, cfg); }
    }
  }

  ghost predicate BuiltOk(r: Roster, n: seq<BackendConfig>, b: Build) {
    && r.nextId <= b.nextId
    && ConfigsOf(b.next) == n
    && (forall h :: h in b.next ==> h.id < b.nextId && (if ConfigOf(h) in ConfigsOf(r.backends) then h in r.backends else h.id >= r.nextId))
    && (forall h :: h in b.added <==> h in b.next && h.id >= r.nextId)
  }

  lemma BuiltStep(r: Roster, n: seq<BackendConfig>, cfg: BackendConfig, b: Build)
    requires RosterOk(r) && BuiltOk(r, n, b)
    ensures cfg !in ConfigsOf(r.backends) ==>
              var h := Handle(b.nextId, cfg.name, cfg.url);
              BuiltOk(r, n + [cfg], Build(b.next + [h], b.added + [h], b.nextId + 1))
    ensures forall h :: Serves(r, h, cfg) ==> BuiltOk(r, n + [cfg], Build(b.next + [h], b.added, b.nextId))
  {
    forall h | ConfigOf(h) == cfg ensures ConfigsOf(b.next + [h]) == n + [cfg] {}
    forall h | Serves(r, h, cfg) ensures cfg in ConfigsOf(r.backends) { ConfigIn(r.backends, cfg); }
  }

  lemma {:induction false} NamedExact(r: Roster, cfgs: seq<BackendConfig>)
    requires RosterOk(r) && forall c :: c in cfgs ==> c in ConfigsOf(r.backends)
    ensures forall h :: h in Named(r.backends, cfgs) <==> h in r.backends && ConfigOf(h) in cfgs
    ensures ConfigsOf(Named(r.backends, cfgs)) == cfgs
  {
    if cfgs != [] {
      var init, last := cfgs[..|cfgs| - 1], cfgs[|cfgs| - 1];
      assert cfgs == init + [last];
      NamedExact(r, init);
      ConfigIn(r.backends, last);
      ByNameFinds(r.backends, last.name);
    }
  }

  /** A reload of a consistent roster to a valid list succeeds; the live list then reads exactly the new list in
      order, entries present before keep their object, the others get a fresh one that is neither healthy nor retired,
      exactly the objects no longer listed are retired, no retired object is live, and the version rises by one. */
  lemma ApplySimulates(r: Roster, n: seq<BackendConfig>, parses: string -> bool)
    requires RosterOk(r) && DistinctNames(n) && NulFree(n) && forall b :: b in n ==> parses(b.url)
    requires forall h :: h in r.healthy ==> h.id < r.nextId
    ensures var o := ConfigsOf(r.backends);
            var result := ApplyDiff(r, Diff(o, n), n, parses);
            && result.Ok? && ReloadedTo(r, n, result.value)
  {
    var o := ConfigsOf(r.backends);
    assert n[..|n|] == n;
    BuildOfDiff(r, n, parses, |n|);
    NamedExact(r, Diff(o, n).removed);
    var a := ApplyDiff(r, Diff(o, n), n, parses).value;
    forall h | h in r.backends ensures h in a.removed <==> h !in a.roster.backends {
      ConfigIn(r.backends, ConfigOf(h));
      ConfigIn(a.roster.backends, ConfigOf(h));
      if ConfigOf(h) in n {
        var x :| x in a.roster.backends && ConfigOf(x) == ConfigOf(h);
        ByNameFinds(r.backends, h.name);
      }
    }
  }

  ghost predicate ReloadedTo(r: Roster, n: seq<BackendConfig>, a: Applied) {
    && RosterOk(a.roster) && a.roster.version == r.version + 1
    && ConfigsOf(a.roster.backends) == n
    && (forall h :: h in a.roster.backends ==> (h in r.backends <==> ConfigOf(h) in ConfigsOf(r.backends)))
    && (forall h :: h in a.added <==> h in a.roster.backends && h !in r.backends)
    && (forall h :: h in a.added ==> h.id >= r.nextId && h !in a.roster.healthy && h !in a.roster.removed)
    && (forall h :: h in a.removed <==> h in r.backends && h !in a.roster.backends)
    && a.roster.removed == r.removed + SetOf(a.removed)
    && a.roster.healthy == r.healthy
    && r.nextId <= a.roster.nextId
  }

  lemma ExtendedAdds(r: Roster, b: Build, cfg: BackendConfig)
    ensures ConfigsOf(Extended(r, b, cfg).added) == ConfigsOf(b.added) + if cfg in ConfigsOf(r.backends) then [] else [cfg]
  {
  }

  /** The entries added for a prefix of the new list are those that were not there before, in order. */
  predicate AddsInOrder(r: Roster, n: seq<BackendConfig>, parses: string -> bool, prefix: seq<BackendConfig>) {
    var o := ConfigsOf(r.backends);
    var built := BuildNext(r, Diff(o, n), prefix, parses);
    built.Ok? && ConfigsOf(built.value.added) == Filter(prefix, NotIn(o))
  }

  lemma AddsNext(r: Roster, n: seq<BackendConfig>, parses: string -> bool, prefix: seq<BackendConfig>, cfg: BackendConfig)
    requires RosterOk(r) && NulFree(n) && cfg in n && parses(cfg.url) && AddsInOrder(r, n, parses, prefix)
    ensures AddsInOrder(r, n, parses, prefix + [cfg])
  {
    BuildEntry(r, n, parses, prefix, cfg);
    ExtendedAdds(r, BuildNext(r, Diff(ConfigsOf(r.backends), n), prefix, parses).value, cfg);
    FilterSnoc(prefix, cfg, NotIn(ConfigsOf(r.backends)));
  }

  lemma {:induction false} AddedInOrder(r: Roster, n: seq<BackendConfig>, parses: string -> bool, i: nat)
    requires RosterOk(r) && NulFree(n) && i <= |n| && forall b :: b in n ==> parses(b.url)
    ensures AddsInOrder(r, n, parses, n[..i])
  {
    if i > 0 {
      AddedInOrder(r, n, parses, i - 1);
      AddsNext(r, n, parses, n[..i - 1], n[i - 1]);
      assert n[..i] == n[..i - 1] + [n[i - 1]];
    }
  }

  /** The two lists an apply returns are the diff's, entry for entry and in its order. */
  lemma ApplyListsTheDiff(r: Roster, n: seq<BackendConfig>, parses: string -> bool)
    requires RosterOk(r) && DistinctNames(n) && NulFree(n) && forall b :: b in n ==> parses(b.url)
    ensures var diff := Diff(ConfigsOf(r.backends), n);
            var result := ApplyDiff(r, diff, n, parses);
            result.Ok? && ConfigsOf(result.value.added) == diff.added && ConfigsOf(result.value.removed) == diff.removed
  {
    assert n[..|n|] == n;
    AddedInOrder(r, n, parses, |n|);
    NamedExact(r, Diff(ConfigsOf(r.backends), n).removed);
  }
}
