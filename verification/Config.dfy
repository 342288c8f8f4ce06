/** Configurations: what Validate accepts and resolves (internal/config/config.go:412-573), and the two
    comparisons a reload is decided on (internal/config/diff.go). */
module Config {
  import opened Fleet
  import opened Seqs

  datatype BackendConfig = BackendConfig(name: string, url: string)

  datatype Tls = Tls(certFile: string, keyFile: string)

  datatype Health<D> = Health(probeInterval: D, probeTimeout: D)

  datatype Server<D> = Server(readTimeout: D, idleTimeout: D)

  datatype Transport<D, F> = Transport(forceHttp2: F, tlsSkipVerify: bool, dialTimeout: D, responseHeaderTimeout: D,
                                       maxIdleConnsPerHost: D, idleConnTimeout: D)

  /** The top-level configuration; a section with one field is that field.  A pointer field of the YAML document has
      type Option while the document is raw, where None is "key omitted", and its plain type once it is resolved. */
  datatype Config<D, A, F> = Config(
    listen: string, tls: Option<Tls>, h2c: bool, algorithm: string, backends: seq<BackendConfig>,
    health: Health<D>, cooldown: D, metricsListen: A, healthListen: A, drainWindow: D,
    server: Server<D>, transport: Transport<D, F>)

  type Raw = Config<Option<int>, Option<string>, Option<bool>>
  type Resolved = Config<int, string, bool>

  const SECOND: int := 1_000_000_000
  const DEFAULT_PROBE_INTERVAL := 5 * SECOND
  const DEFAULT_PROBE_TIMEOUT := 2 * SECOND
  const DEFAULT_COOLDOWN := 30 * SECOND
  const DEFAULT_METRICS_LISTEN := ":9090"
  const DEFAULT_HEALTH_LISTEN := ":8081"
  const DEFAULT_DRAIN_WINDOW := 30 * SECOND
  const DEFAULT_READ_TIMEOUT := 60 * SECOND
  const DEFAULT_IDLE_TIMEOUT := 90 * SECOND
  const DEFAULT_DIAL_TIMEOUT := 5 * SECOND
  const DEFAULT_RESPONSE_HEADER_TIMEOUT := 30 * SECOND
  const DEFAULT_IDLE_CONN_TIMEOUT := 90 * SECOND
  const DEFAULT_MAX_IDLE_CONNS_PER_HOST := 100
  const ALGORITHMS: set<string> := {"round_robin", "least_conn", "consistent_hash", "p2c_ewma"}

  datatype Problem =
    | ListenEmpty | ListenInvalid | TwoListenerModes | CertFileEmpty | KeyFileEmpty | NoBackends
    | BackendInvalid(index: nat) | DuplicateName | UnsupportedAlgorithm
    | NotPositive(field: nat) | MetricsListenInvalid | HealthListenInvalid

  /** Address and URL syntax, decided by the standard library. */
  datatype Syntax = Syntax(hostPort: string -> bool, backendUrl: string -> bool)

  function OrElse<T>(o: Option<T>, default: T): T {
    if o.Some? then o.value else default
  }

  predicate NameChar(c: char) {
    'a' <= c <= 'z' || 'A' <= c <= 'Z' || '0' <= c <= '9' || c == '_' || c == '-'
  }

  predicate ValidName(name: string) {
    name != "" && forall c :: c in name ==> NameChar(c)
  }

  predicate ValidBackend(syntax: Syntax, b: BackendConfig) {
    ValidName(b.name) && syntax.backendUrl(b.url)
  }

  predicate DistinctNames(s: seq<BackendConfig>) {
    forall i, j :: 0 <= i < j < |s| ==> s[i].name != s[j].name
  }

  /** Every omitted field replaced by its default. */
  function Resolve(c: Raw): Resolved {
    Config(c.listen, c.tls, c.h2c, if c.algorithm == "" then "round_robin" else c.algorithm, c.backends,
           Health(OrElse(c.health.probeInterval, DEFAULT_PROBE_INTERVAL), OrElse(c.health.probeTimeout, DEFAULT_PROBE_TIMEOUT)),
           OrElse(c.cooldown, DEFAULT_COOLDOWN),
           OrElse(c.metricsListen, DEFAULT_METRICS_LISTEN),
           OrElse(c.healthListen, DEFAULT_HEALTH_LISTEN),
           OrElse(c.drainWindow, DEFAULT_DRAIN_WINDOW),
           Server(OrElse(c.server.readTimeout, DEFAULT_READ_TIMEOUT), OrElse(c.server.idleTimeout, DEFAULT_IDLE_TIMEOUT)),
           Transport(OrElse(c.transport.forceHttp2, true), c.transport.tlsSkipVerify,
                     OrElse(c.transport.dialTimeout, DEFAULT_DIAL_TIMEOUT),
                     OrElse(c.transport.responseHeaderTimeout, DEFAULT_RESPONSE_HEADER_TIMEOUT),
                     OrElse(c.transport.maxIdleConnsPerHost, DEFAULT_MAX_IDLE_CONNS_PER_HOST),
                     OrElse(c.transport.idleConnTimeout, DEFAULT_IDLE_CONN_TIMEOUT)))
  }

  /** The document in which every default is spelled out. */
  function Explicit(c: Resolved): Raw {
    Config(c.listen, c.tls, c.h2c, c.algorithm, c.backends,
           Health(Some(c.health.probeInterval), Some(c.health.probeTimeout)), Some(c.cooldown),
           Some(c.metricsListen), Some(c.healthListen), Some(c.drainWindow),
           Server(Some(c.server.readTimeout), Some(c.server.idleTimeout)),
           Transport(Some(c.transport.forceHttp2), c.transport.tlsSkipVerify, Some(c.transport.dialTimeout),
                     Some(c.transport.responseHeaderTimeout), Some(c.transport.maxIdleConnsPerHost),
                     Some(c.transport.idleConnTimeout)))
  }

  predicate PositiveDurations(c: Resolved) {
    && c.health.probeInterval > 0 && c.health.probeTimeout > 0 && c.cooldown > 0 && c.drainWindow > 0
    && c.server.readTimeout > 0 && c.server.idleTimeout > 0 && c.transport.dialTimeout > 0
    && c.transport.responseHeaderTimeout > 0 && c.transport.maxIdleConnsPerHost > 0 && c.transport.idleConnTimeout > 0
  }

  /** What the rest of the program may rely on. */
  predicate Valid(syntax: Syntax, c: Resolved) {
    && c.listen != "" && syntax.hostPort(c.listen)
    && !(c.tls.Some? && c.h2c)
    && (c.tls.Some? ==> c.tls.value.certFile != "" && c.tls.value.keyFile != "")
    && c.backends != [] && DistinctNames(c.backends) && (forall b :: b in c.backends ==> ValidBackend(syntax, b))
    && c.algorithm in ALGORITHMS
    && PositiveDurations(c)
    && (c.metricsListen == DEFAULT_METRICS_LISTEN || (c.metricsListen != "" && syntax.hostPort(c.metricsListen)))
    && (c.healthListen == DEFAULT_HEALTH_LISTEN || (c.healthListen != "" && syntax.hostPort(c.healthListen)))
  }

  predicate Positive(o: Option<int>) {
    o.None? || o.value > 0
  }

  predicate Address(syntax: Syntax, o: Option<string>) {
    o.None? || (o.value != "" && syntax.hostPort(o.value))
  }

  /** The fields that must be positive when set, in the order in which they are checked. */
  predicate FieldPositive(c: Raw, i: nat) {
    match i
    case 0 => Positive(c.health.probeInterval)
    case 1 => Positive(c.health.probeTimeout)
    case 2 => Positive(c.cooldown)
    case 3 => Positive(c.drainWindow)
    case 4 => Positive(c.server.readTimeout)
    case 5 => Positive(c.server.idleTimeout)
    case 6 => Positive(c.transport.dialTimeout)
    case 7 => Positive(c.transport.responseHeaderTimeout)
    case 8 => Positive(c.transport.idleConnTimeout)
    case _ => Positive(c.transport.maxIdleConnsPerHost)
  }

  /** Field k is the first that is not positive, or k is 10 and all are. */
  predicate FirstAt(c: Raw, k: nat) {
    k <= 10 && (forall j | 0 <= j < k :: FieldPositive(c, j)) && (k < 10 ==> !FieldPositive(c, k))
  }

  function FirstNonPositive(c: Raw, i: nat): (k: nat)
    requires i <= 10
    ensures i <= k <= 10 && (forall j | i <= j < k :: FieldPositive(c, j)) && (k < 10 ==> !FieldPositive(c, k))
    decreases 10 - i
  {
    if i == 10 || !FieldPositive(c, i) then i else FirstNonPositive(c, i + 1)
  }

  lemma FirstAtUnique(c: Raw, k: nat)
    requires FirstAt(c, k)
    ensures FirstNonPositive(c, 0) == k
  {
    assert FieldPositive(c, k) || FirstNonPositive(c, 0) <= k;
  }

  predicate AllPositive(c: Raw) {
    FirstNonPositive(c, 0) == 10
  }

  /** The listener's part of the order; 5 if it breaks nothing. */
  function ListenerBroken(syntax: Syntax, c: Raw): nat {
    if c.listen == "" then 0
    else if !syntax.hostPort(c.listen) then 1
    else if c.tls.Some? && c.h2c then 2
    else if c.tls.Some? && c.tls.value.certFile == "" then 3
    else if c.tls.Some? && c.tls.value.keyFile == "" then 4
    else 5
  }

  /** The first requirement the document breaks, in the order Validate promises; 21 if it breaks none. */
  ghost function FirstBroken(syntax: Syntax, c: Raw): nat {
    if ListenerBroken(syntax, c) < 5 then ListenerBroken(syntax, c)
    else if c.backends == [] then 5
    else if exists b :: b in c.backends && !ValidBackend(syntax, b) then 6
    else if !DistinctNames(c.backends) then 7
    else if (if c.algorithm == "" then "round_robin" else c.algorithm) !in ALGORITHMS then 8
    else if !AllPositive(c) then 9 + FirstNonPositive(c, 0)
    else if !Address(syntax, c.metricsListen) then 19
    else if !Address(syntax, c.healthListen) then 20
    else 21
  }

  /** Breaking nothing is exactly resolving to a valid configuration. */
  lemma NothingBrokenIsValid(syntax: Syntax, c: Raw)
    requires syntax.hostPort(DEFAULT_METRICS_LISTEN) && syntax.hostPort(DEFAULT_HEALTH_LISTEN)
    ensures FirstBroken(syntax, c) == 21 <==> Valid(syntax, Resolve(c))
  {
    PositiveOnceResolved(c);
    var r := Resolve(c);
    assert Address(syntax, c.metricsListen) ==
             (r.metricsListen == DEFAULT_METRICS_LISTEN || (r.metricsListen != "" && syntax.hostPort(r.metricsListen)));
    assert Address(syntax, c.healthListen) ==
             (r.healthListen == DEFAULT_HEALTH_LISTEN || (r.healthListen != "" && syntax.hostPort(r.healthListen)));
    assert (exists b :: b in c.backends && !ValidBackend(syntax, b)) == !(forall b :: b in r.backends ==> ValidBackend(syntax, b));
  }

  lemma PositiveOnceResolved(c: Raw)
    ensures AllPositive(c) <==> PositiveDurations(Resolve(c))
  {
    if AllPositive(c) {
      assert FieldPositive(c, 0) && FieldPositive(c, 1) && FieldPositive(c, 2) && FieldPositive(c, 3);
      assert FieldPositive(c, 4) && FieldPositive(c, 5) && FieldPositive(c, 6) && FieldPositive(c, 7);
      assert FieldPositive(c, 8) && FieldPositive(c, 9);
    }
  }

  function CheckOf(p: Problem): nat {
    match p
    case ListenEmpty => 0
    case ListenInvalid => 1
    case TwoListenerModes => 2
    case CertFileEmpty => 3
    case KeyFileEmpty => 4
    case NoBackends => 5
    case BackendInvalid(_) => 6
    case DuplicateName => 7
    case UnsupportedAlgorithm => 8
    case NotPositive(field) => 9 + field
    case MetricsListenInvalid => 19
    case HealthListenInvalid => 20
  }

  /** What each problem says of the document. */
  predicate Has(syntax: Syntax, c: Raw, p: Problem) {
    match p
    case ListenEmpty => c.listen == ""
    case ListenInvalid => !syntax.hostPort(c.listen)
    case TwoListenerModes => c.tls.Some? && c.h2c
    case CertFileEmpty => c.tls.Some? && c.tls.value.certFile == ""
    case KeyFileEmpty => c.tls.Some? && c.tls.value.keyFile == ""
    case NoBackends => c.backends == []
    case BackendInvalid(i) => i < |c.backends| && !ValidBackend(syntax, c.backends[i])
    case DuplicateName => !DistinctNames(c.backends)
    case UnsupportedAlgorithm => c.algorithm !in {"", "round_robin", "least_conn", "consistent_hash", "p2c_ewma"}
    case NotPositive(field) => field < 10 && !FieldPositive(c, field)
    case MetricsListenInvalid => c.metricsListen.Some? && (c.metricsListen.value == "" || !syntax.hostPort(c.metricsListen.value))
    case HealthListenInvalid => c.healthListen.Some? && (c.healthListen.value == "" || !syntax.hostPort(c.healthListen.value))
  }

  predicate Precedes(p: Problem, q: Problem) {
    CheckOf(p) < CheckOf(q) || (p.BackendInvalid? && q.BackendInvalid? && p.index < q.index)
  }

  /** p is a problem of the document and no problem that is checked earlier is. */
  ghost predicate FirstProblemOf(syntax: Syntax, c: Raw, p: Problem) {
    Has(syntax, c, p) && forall q :: Has(syntax, c, q) ==> !Precedes(q, p)
  }

  /** No problem the document has is checked before the first broken requirement. */
  lemma NothingBefore(syntax: Syntax, c: Raw)
    ensures forall q :: Has(syntax, c, q) ==> FirstBroken(syntax, c) <= CheckOf(q)
  {
    forall q | Has(syntax, c, q)
      ensures FirstBroken(syntax, c) <= CheckOf(q)
    {
      match q
      case BackendInvalid(i) => assert c.backends[i] in c.backends;
      case NotPositive(field) => assert !FieldPositive(c, field);
      case _ =>
    }
  }

  method ValidateBackends(syntax: Syntax, backends: seq<BackendConfig>) returns (problem: Option<Problem>)
    ensures problem.None? <==> (forall b :: b in backends ==> ValidBackend(syntax, b)) && DistinctNames(backends)
    ensures problem.Some? && problem.value.BackendInvalid? ==>
              var i := problem.value.index;
              i < |backends| && !ValidBackend(syntax, backends[i]) && forall j :: 0 <= j < i ==> ValidBackend(syntax, backends[j])
    ensures problem.Some? && !problem.value.BackendInvalid? ==>
              problem.value == DuplicateName && forall b :: b in backends ==> ValidBackend(syntax, b)
  {
    for i := 0 to |backends|
      invariant forall j :: 0 <= j < i ==> ValidBackend(syntax, backends[j])
    {
      assert backends[i] in backends;
      if !ValidName(backends[i].name) || !syntax.backendUrl(backends[i].url) { return Some(BackendInvalid(i)); }
    }
    var seen: set<string> := {};
    for i := 0 to |backends|
      invariant seen == set j | 0 <= j < i :: backends[j].name
      invariant DistinctNames(backends[..i])
    {
      if backends[i].name in seen {
        var j :| 0 <= j < i && backends[j].name == backends[i].name;
        return Some(DuplicateName);
      }
      seen := seen + {backends[i].name};
    }
    assert backends[..|backends|] == backends;
    return None;
  }

  method ValidateListener(syntax: Syntax, c: Raw) returns (problem: Option<Problem>)
    ensures problem.None? <==> ListenerBroken(syntax, c) == 5
    ensures problem.Some? ==> ListenerBroken(syntax, c) == CheckOf(problem.value) < 5
  {
    if c.listen == "" { return Some(ListenEmpty); }
    if !syntax.hostPort(c.listen) { return Some(ListenInvalid); }
    if c.tls.Some? && c.h2c { return Some(TwoListenerModes); }
    if c.tls.Some? {
      if c.tls.value.certFile == "" { return Some(CertFileEmpty); }
      if c.tls.value.keyFile == "" { return Some(KeyFileEmpty); }
    }
    return None;
  }

  /** The ten positive fields, one after the other. */
  method NormalizeDurations(c: Raw) returns (field: nat)
    ensures FirstAt(c, field)
  {
    if !Positive(c.health.probeInterval) { return 0; }
    if !Positive(c.health.probeTimeout) { return 1; }
    if !Positive(c.cooldown) { return 2; }
    if !Positive(c.drainWindow) { return 3; }
    if !Positive(c.server.readTimeout) { return 4; }
    if !Positive(c.server.idleTimeout) { return 5; }
    if !Positive(c.transport.dialTimeout) { return 6; }
    if !Positive(c.transport.responseHeaderTimeout) { return 7; }
    if !Positive(c.transport.idleConnTimeout) { return 8; }
    if !Positive(c.transport.maxIdleConnsPerHost) { return 9; }
    return 10;
  }

  /** The checks in their fixed order; the first problem, if any. */
  method FirstProblem(syntax: Syntax, c: Raw) returns (problem: Option<Problem>)
    ensures FirstBroken(syntax, c) == if problem.None? then 21 else CheckOf(problem.value)
    ensures problem.Some? ==> CheckOf(problem.value) < 21 && FirstProblemOf(syntax, c, problem.value)
  {
    NothingBefore(syntax, c);
    problem := ValidateListener(syntax, c);
    if problem.Some? { return; }
    if c.backends == [] { return Some(NoBackends); }
    problem := ValidateBackends(syntax, c.backends);
    if problem.Some? { return; }
    if (if c.algorithm == "" then "round_robin" else c.algorithm) !in ALGORITHMS { return Some(UnsupportedAlgorithm); }
    var field := NormalizeDurations(c);
    FirstAtUnique(c, field);
    if field < 10 { return Some(NotPositive(field)); }
    if !Address(syntax, c.metricsListen) { return Some(MetricsListenInvalid); }
    if !Address(syntax, c.healthListen) { return Some(HealthListenInvalid); }
    return None;
  }

  /** The document with its defaults, or its first problem.  A field that is set is kept; one that is omitted gets the
      default written here. */
  method Validate(syntax: Syntax, c: Raw) returns (r: Result<Resolved, Problem>)
    requires syntax.hostPort(":9090") && syntax.hostPort(":8081")
    ensures r.Ok? <==> Valid(syntax, Resolve(c))
    ensures r.Ok? ==> r.value == Resolve(c)
    ensures r.Ok? ==>
              var v := r.value;
              && v.listen == c.listen && v.tls == c.tls && v.h2c == c.h2c && v.backends == c.backends
              && v.algorithm == (if c.algorithm == "" then "round_robin" else c.algorithm)
              && Fills(c.metricsListen, ":9090", v.metricsListen) && Fills(c.healthListen, ":8081", v.healthListen)
    ensures r.Ok? ==>
              var v := r.value;
              && Fills(c.health.probeInterval, 5_000_000_000, v.health.probeInterval)
              && Fills(c.health.probeTimeout, 2_000_000_000, v.health.probeTimeout)
              && Fills(c.cooldown, 30_000_000_000, v.cooldown) && Fills(c.drainWindow, 30_000_000_000, v.drainWindow)
              && Fills(c.server.readTimeout, 60_000_000_000, v.server.readTimeout)
              && Fills(c.server.idleTimeout, 90_000_000_000, v.server.idleTimeout)
    ensures r.Ok? ==>
              var v := r.value.transport;
              && Fills(c.transport.forceHttp2, true, v.forceHttp2) && v.tlsSkipVerify == c.transport.tlsSkipVerify
              && Fills(c.transport.dialTimeout, 5_000_000_000, v.dialTimeout)
              && Fills(c.transport.responseHeaderTimeout, 30_000_000_000, v.responseHeaderTimeout)
              && Fills(c.transport.maxIdleConnsPerHost, 100, v.maxIdleConnsPerHost)
              && Fills(c.transport.idleConnTimeout, 90_000_000_000, v.idleConnTimeout)
    ensures r.Err? ==> FirstProblemOf(syntax, c, r.error)
  {
    NothingBrokenIsValid(syntax, c);
    var problem := FirstProblem(syntax, c);
    return if problem.Some? then Err(problem.value) else Ok(Resolve(c));
  }

  /** v is what a field holds once resolved. */
  predicate Fills<T(==)>(o: Option<T>, default: T, v: T) {
    (o.Some? ==> v == o.value) && (o.None? ==> v == default)
  }

  /** A document that sets every field is resolved to just what it says. */
  lemma SetFieldsAreKept(r: Resolved)
    requires r.algorithm != ""
    ensures Resolve(Explicit(r)) == r
  {
  }

  /** An omitted field and its explicit default are the same configuration once resolved, and resolving again changes
      nothing. */
  lemma OmittedEqualsExplicit(c: Raw)
    ensures Resolve(Explicit(Resolve(c))) == Resolve(c)
  {}

  // ---------- the reload comparisons ----------

  /** Equal in everything but the two reloadable fields. */
  predicate SameNonBackend(o: Resolved, n: Resolved) {
    o.(backends := [], algorithm := "") == n.(backends := [], algorithm := "")
  }

  function Listed(name: string, differs: bool): seq<string> {
    if differs then [name] else []
  }

  function FirstSections(o: Resolved, n: Resolved): seq<string> {
    Listed("listen", o.listen != n.listen) + Listed("tls", o.tls != n.tls) + Listed("h2c", o.h2c != n.h2c)
    + Listed("health", o.health != n.health) + Listed("circuit", o.cooldown != n.cooldown)
  }

  function LastSections(o: Resolved, n: Resolved): seq<string> {
    Listed("metrics", o.metricsListen != n.metricsListen) + Listed("health_endpoint", o.healthListen != n.healthListen)
    + Listed("reload", o.drainWindow != n.drainWindow) + Listed("server", o.server != n.server)
    + Listed("transport", o.transport != n.transport)
  }

  /** The names of the sections in which the two configurations differ, in the fixed order. */
  function ChangedSections(o: Resolved, n: Resolved): seq<string> {
    FirstSections(o, n) + LastSections(o, n)
  }

  predicate TlsEqual(a: Option<Tls>, b: Option<Tls>) {
    if a.None? || b.None? then a.None? && b.None?
    else a.value.certFile == b.value.certFile && a.value.keyFile == b.value.keyFile
  }

  /** What five comparisons list. */
  lemma FiveListed(a: seq<string>, b: seq<string>, c: seq<string>, d: seq<string>, e: seq<string>, name: string)
    ensures name in a + b + c + d + e <==> name in a || name in b || name in c || name in d || name in e
    ensures a + b + c + d + e == [] <==> a == [] && b == [] && c == [] && d == [] && e == []
  {
  }

  lemma ListedFirst(o: Resolved, n: Resolved, name: string)
    ensures name in FirstSections(o, n) <==>
              || (name == "listen" && o.listen != n.listen) || (name == "tls" && o.tls != n.tls) || (name == "h2c" && o.h2c != n.h2c)
              || (name == "health" && o.health != n.health) || (name == "circuit" && o.cooldown != n.cooldown)
  {
    FiveListed(Listed("listen", o.listen != n.listen), Listed("tls", o.tls != n.tls), Listed("h2c", o.h2c != n.h2c),
               Listed("health", o.health != n.health), Listed("circuit", o.cooldown != n.cooldown), name);
  }

  lemma ListedLast(o: Resolved, n: Resolved, name: string)
    ensures name in LastSections(o, n) <==>
              || (name == "metrics" && o.metricsListen != n.metricsListen)
              || (name == "health_endpoint" && o.healthListen != n.healthListen) || (name == "reload" && o.drainWindow != n.drainWindow)
              || (name == "server" && o.server != n.server) || (name == "transport" && o.transport != n.transport)
  {
    FiveListed(Listed("metrics", o.metricsListen != n.metricsListen), Listed("health_endpoint", o.healthListen != n.healthListen),
               Listed("reload", o.drainWindow != n.drainWindow), Listed("server", o.server != n.server),
               Listed("transport", o.transport != n.transport), name);
  }

  /** Each section is named exactly when its own fields differ. */
  lemma SectionsNamed(o: Resolved, n: Resolved, name: string)
    ensures name in ChangedSections(o, n) <==>
              || (name == "listen" && o.listen != n.listen) || (name == "tls" && o.tls != n.tls) || (name == "h2c" && o.h2c != n.h2c)
              || (name == "health" && o.health != n.health) || (name == "circuit" && o.cooldown != n.cooldown)
              || (name == "metrics" && o.metricsListen != n.metricsListen)
              || (name == "health_endpoint" && o.healthListen != n.healthListen) || (name == "reload" && o.drainWindow != n.drainWindow)
              || (name == "server" && o.server != n.server) || (name == "transport" && o.transport != n.transport)
  {
    ListedFirst(o, n, name);
    ListedLast(o, n, name);
  }

  /** The ten sections are every non-backend field: none differs exactly when nothing but backends and algorithm may
      differ. */
  lemma NoSectionChanged(o: Resolved, n: Resolved)
    ensures ChangedSections(o, n) == [] <==> SameNonBackend(o, n)
  {
    if SameNonBackend(o, n) {
    } else if ChangedSections(o, n) == [] {
      SectionsNamed(o, n, "listen");
      SectionsNamed(o, n, "tls");
      SectionsNamed(o, n, "h2c");
      SectionsNamed(o, n, "health");
      SectionsNamed(o, n, "circuit");
      SectionsNamed(o, n, "metrics");
      SectionsNamed(o, n, "health_endpoint");
      SectionsNamed(o, n, "reload");
      SectionsNamed(o, n, "server");
      SectionsNamed(o, n, "transport");
      assert false;
    }
  }

  /** One comparison: the section's name is appended when it differs. */
  method Note(sofar: seq<string>, name: string, differs: bool) returns (changed: seq<string>)
    ensures changed == sofar + Listed(name, differs)
  {
    changed := if differs then sofar + [name] else sofar;
  }

  method NoteFirst(o: Resolved, n: Resolved) returns (changed: seq<string>)
    ensures changed == FirstSections(o, n)
  {
    changed := Listed("listen", o.listen != n.listen);
    changed := Note(changed, "tls", !TlsEqual(o.tls, n.tls));
    changed := Note(changed, "h2c", o.h2c != n.h2c);
    changed := Note(changed, "health", !HealthEqual(o.health, n.health));
    changed := Note(changed, "circuit", o.cooldown != n.cooldown);
  }

  predicate HealthEqual(a: Health<int>, b: Health<int>) {
    a.probeInterval == b.probeInterval && a.probeTimeout == b.probeTimeout
  }

  predicate ServerEqual(a: Server<int>, b: Server<int>) {
    a.readTimeout == b.readTimeout && a.idleTimeout == b.idleTimeout
  }

  predicate TransportEqual(a: Transport<int, bool>, b: Transport<int, bool>) {
    && a.forceHttp2 == b.forceHttp2 && a.tlsSkipVerify == b.tlsSkipVerify && a.dialTimeout == b.dialTimeout
    && a.responseHeaderTimeout == b.responseHeaderTimeout && a.maxIdleConnsPerHost == b.maxIdleConnsPerHost
    && a.idleConnTimeout == b.idleConnTimeout
  }

  method NoteLast(o: Resolved, n: Resolved) returns (changed: seq<string>)
    ensures changed == LastSections(o, n)
  {
    changed := Listed("metrics", o.metricsListen != n.metricsListen);
    changed := Note(changed, "health_endpoint", o.healthListen != n.healthListen);
    changed := Note(changed, "reload", o.drainWindow != n.drainWindow);
    changed := Note(changed, "server", !ServerEqual(o.server, n.server));
    changed := Note(changed, "transport", !TransportEqual(o.transport, n.transport));
  }

  method NonBackendChanges(o: Resolved, n: Resolved) returns (changed: seq<string>)
    ensures changed == ChangedSections(o, n)
    ensures changed == [] <==> SameNonBackend(o, n)
  {
    NoSectionChanged(o, n);
    var first := NoteFirst(o, n);
    var last := NoteLast(o, n);
    changed := first + last;
  }

  // ---------- the backend diff ----------

  datatype BackendDiff = BackendDiff(added: seq<BackendConfig>, removed: seq<BackendConfig>, kept: seq<BackendConfig>)

  /** The identity key: name and URL joined by a NUL byte. */
  function Identity(b: BackendConfig): string {
    b.name + "\0" + b.url
  }

  function Identities(s: seq<BackendConfig>): set<string> {
    set b | b in s :: Identity(b)
  }

  /** For names without a NUL, which is every validated name, the key determines the (name, URL) pair. */
  lemma {:induction false} IdentityInjective(a: BackendConfig, b: BackendConfig)
    requires '\0' !in a.name && '\0' !in b.name && Identity(a) == Identity(b)
    ensures a == b
    decreases |a.name|
  {
    var x, y := Identity(a), Identity(b);
    if a.name == "" || b.name == "" {
      assert x[0] == y[0];
      assert a.name == b.name == "";
      assert x[1..] == a.url && y[1..] == b.url;
    } else {
      var a', b' := a.(name := a.name[1..]), b.(name := b.name[1..]);
      assert Identity(a') == x[1..] && Identity(b') == y[1..];
      IdentityInjective(a', b');
      assert a.name == [x[0]] + a.name[1..] && b.name == [y[0]] + b.name[1..];
    }
  }

  function Split(s: string): (i: nat)
    requires '\0' in s
    ensures i < |s| && s[i] == '\0' && '\0' !in s[..i]
  {
    if s[0] == '\0' then 0
    else
      var i := Split(s[1..]) + 1;
      assert s[..i] == [s[0]] + s[1..][..i - 1];
      i
  }

  /** A pair with a NUL in it shares its key with the pair cut at another NUL. */
  lemma OtherCut(a: BackendConfig) returns (b: BackendConfig)
    requires '\0' in a.name || '\0' in a.url
    ensures b != a && Identity(b) == Identity(a)
  {
    if '\0' in a.name {
      var i := Split(a.name);
      b := BackendConfig(a.name[..i], a.name[i + 1..] + "\0" + a.url);
      assert a.name == a.name[..i] + "\0" + a.name[i + 1..];
      assert Identity(b) == Identity(a);
    } else {
      var i := Split(a.url);
      b := BackendConfig(a.name + "\0" + a.url[..i], a.url[i + 1..]);
      assert a.url == a.url[..i] + "\0" + a.url[i + 1..];
      assert Identity(b) == Identity(a);
      assert |b.name| > |a.name|;
    }
  }

  lemma NulOnlyAtSeam(a: BackendConfig, i: nat)
    requires '\0' !in a.name && '\0' !in a.url && i < |Identity(a)| && i != |a.name|
    ensures Identity(a)[i] != '\0'
  {
    if i < |a.name| {
      assert Identity(a)[i] == a.name[i];
    } else {
      assert Identity(a)[i] == a.url[i - |a.name| - 1];
    }
  }

  /** A pair without a NUL shares its key with no other pair. */
  lemma OnlyCut(a: BackendConfig, b: BackendConfig)
    requires '\0' !in a.name && '\0' !in a.url && Identity(a) == Identity(b)
    ensures a == b
  {
    var x, y := Identity(a), Identity(b);
    if '\0' in b.name {
      var i := Split(b.name);
      assert x[i] == '\0' && x[|b.name|] == '\0' && i < |b.name|;
      NulOnlyAtSeam(a, if i == |a.name| then |b.name| else i);
      assert false;
    }
    IdentityInjective(a, b);
  }

  /** The exact precondition of the key: another pair has the same one exactly when the name or the URL contains a NUL. */
  lemma IdentityCollides(a: BackendConfig)
    ensures (exists b :: b != a && Identity(b) == Identity(a)) <==> '\0' in a.name || '\0' in a.url
  {
    if '\0' in a.name || '\0' in a.url {
      var b := OtherCut(a);
    } else {
      forall b | Identity(b) == Identity(a)
        ensures b == a
      {
        OnlyCut(a, b);
      }
    }
  }

  predicate NulFree(s: seq<BackendConfig>) {
    forall b :: b in s ==> '\0' !in b.name
  }

  function In(s: seq<BackendConfig>): BackendConfig -> bool {
    (b: BackendConfig) => b in s
  }

  function NotIn(s: seq<BackendConfig>): BackendConfig -> bool {
    (b: BackendConfig) => b !in s
  }

  function KeyIn(s: seq<BackendConfig>): BackendConfig -> bool {
    (b: BackendConfig) => Identity(b) in Identities(s)
  }

  function KeyNotIn(s: seq<BackendConfig>): BackendConfig -> bool {
    (b: BackendConfig) => Identity(b) !in Identities(s)
  }

  /** The diff by identity key. */
  function DiffByKey(o: seq<BackendConfig>, n: seq<BackendConfig>): BackendDiff {
    BackendDiff(Filter(n, KeyNotIn(o)), Filter(o, KeyNotIn(n)), Filter(n, KeyIn(o)))
  }

  /** The diff as (name, URL) pairs: added and unchanged in the new order, removed in the old order. */
  function Diff(o: seq<BackendConfig>, n: seq<BackendConfig>): BackendDiff {
    BackendDiff(Filter(n, NotIn(o)), Filter(o, NotIn(n)), Filter(n, In(o)))
  }

  method BackendIdentities(s: seq<BackendConfig>) returns (ids: set<string>)
    ensures ids == Identities(s)
  {
    ids := {};
    for i := 0 to |s|
      invariant ids == Identities(s[..i])
    {
      assert s[..i + 1] == s[..i] + [s[i]];
      ids := ids + {Identity(s[i])};
    }
    assert s[..|s|] == s;
  }

  lemma IdentityMembership(s: seq<BackendConfig>, b: BackendConfig)
    requires NulFree(s) && '\0' !in b.name
    ensures Identity(b) in Identities(s) <==> b in s
  {
    if Identity(b) in Identities(s) {
      var x :| x in s && Identity(x) == Identity(b);
      IdentityInjective(x, b);
    }
  }

  lemma {:induction false} SameFilter(s: seq<BackendConfig>, p: BackendConfig -> bool, q: BackendConfig -> bool)
    requires forall b :: b in s ==> p(b) == q(b)
    ensures Filter(s, p) == Filter(s, q)
  {
    if s != [] {
      assert s == s[..|s| - 1] + [s[|s| - 1]];
      SameFilter(s[..|s| - 1], p, q);
    }
  }

  /** Names without a NUL make the diff by key the diff by pair. */
  lemma KeysArePairs(o: seq<BackendConfig>, n: seq<BackendConfig>)
    requires NulFree(o) && NulFree(n)
    ensures DiffByKey(o, n) == Diff(o, n)
  {
    forall b | b in n ensures Identity(b) in Identities(o) <==> b in o { IdentityMembership(o, b); }
    forall b | b in o ensures Identity(b) in Identities(n) <==> b in n { IdentityMembership(n, b); }
    SameFilter(n, KeyNotIn(o), NotIn(o));
    SameFilter(o, KeyNotIn(n), NotIn(n));
    SameFilter(n, KeyIn(o), In(o));
  }

  /** The second loop, over the old list. */
  method RemovedFrom(o: seq<BackendConfig>, newIds: set<string>, n: seq<BackendConfig>) returns (removed: seq<BackendConfig>)
    requires newIds == Identities(n)
    ensures removed == Filter(o, KeyNotIn(n))
  {
    removed := [];
    for i := 0 to |o|
      invariant removed == Filter(o[..i], KeyNotIn(n))
    {
      FilterTake(o, i, KeyNotIn(n));
      if Identity(o[i]) !in newIds { removed := removed + [o[i]]; }
    }
    assert o[..|o|] == o;
  }

  method DiffBackends(o: seq<BackendConfig>, n: seq<BackendConfig>) returns (diff: BackendDiff)
    ensures diff == DiffByKey(o, n)
    ensures NulFree(o) && NulFree(n) ==> diff == Diff(o, n)
  {
    var oldIds := BackendIdentities(o);
    var newIds := BackendIdentities(n);
    var added, kept := [], [];
    for i := 0 to |n|
      invariant added == Filter(n[..i], KeyNotIn(o)) && kept == Filter(n[..i], KeyIn(o))
    {
      FilterTake(n, i, KeyNotIn(o));
      FilterTake(n, i, KeyIn(o));
      if Identity(n[i]) in oldIds {
        kept := kept + [n[i]];
      } else {
        added := added + [n[i]];
      }
    }
    assert n[..|n|] == n;
    var removed := RemovedFrom(o, newIds, n);
    if NulFree(o) && NulFree(n) { KeysArePairs(o, n); }
    return BackendDiff(added, removed, kept);
  }

  /** Two lists of the same entries differ in nothing, in whatever order each has them. */
  lemma ReorderKeepsAll(o: seq<BackendConfig>, n: seq<BackendConfig>)
    requires forall b :: b in o <==> b in n
    ensures Diff(o, n) == BackendDiff([], [], n)
  {
    FilterNone(n, NotIn(o));
    FilterNone(o, NotIn(n));
    FilterAll(n, In(o));
  }
}
