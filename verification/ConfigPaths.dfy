/**
  Where a configuration field lives. Every field has a legacy path; the V8
  layout moved most of them to a canonical path, and two families were kept at
  a third, historical place in between. The editor maps paths with a table and
  the longest matching legacy prefix.
 */
module ConfigPaths {
  import opened YamlTree

  /** A key name; the names the table mentions are numbered, and the numbers from LISTED on are all other names. */
  type Key = nat

  const CODEX: Key := 0
  const OAUTH: Key := 1
  const PROVIDERS: Key := 2
  const HOST: Key := 3
  const SERVER: Key := 4
  const PORT: Key := 5
  const TLS: Key := 6
  const COMMERCIAL_MODE: Key := 7
  const REMOTE_MANAGEMENT: Key := 8
  const MANAGEMENT: Key := 9
  const FORCE_MODEL_PREFIX: Key := 10
  const ROUTING: Key := 11
  const REQUEST_RETRY: Key := 12
  const RETRY: Key := 13
  const MAX_RETRY_CREDENTIALS: Key := 14
  const MAX_RETRY_INTERVAL: Key := 15
  const DISABLE_COOLING: Key := 16
  const COOLDOWN: Key := 17
  const SAVE_COOLDOWN_STATUS: Key := 18
  const TRANSIENT_ERROR_COOLDOWN_SECONDS: Key := 19
  const PROXY_URL: Key := 20
  const REQUESTS: Key := 21
  const PASSTHROUGH_HEADERS: Key := 22
  const NONSTREAM_KEEPALIVE_INTERVAL: Key := 23
  const STREAMING: Key := 24
  const PAYLOAD: Key := 25
  const AUTH_DIR: Key := 26
  const AUTH_AUTO_REFRESH_WORKERS: Key := 27
  const WS_AUTH: Key := 28
  const AISTUDIO: Key := 29
  const CODEX_HEADER_DEFAULTS: Key := 30
  const HEADER_DEFAULTS: Key := 31
  const DISABLE_CLAUDE_CLOAK_MODE: Key := 32
  const UPSTREAM: Key := 33
  const CLAUDE: Key := 34
  const CLAUDE_HEADER_DEFAULTS: Key := 35
  const ANTIGRAVITY_SIGNATURE_CACHE_ENABLED: Key := 36
  const ANTIGRAVITY: Key := 37
  const SIGNATURE_CACHE_ENABLED: Key := 38
  const ANTIGRAVITY_SIGNATURE_BYPASS_STRICT: Key := 39
  const SIGNATURE_BYPASS_STRICT: Key := 40
  const QUOTA_EXCEEDED: Key := 41
  const ANTIGRAVITY_CREDITS: Key := 42
  const DEVIN: Key := 43
  const DISABLE_IMAGE_GENERATION: Key := 44
  const MULTIMEDIA: Key := 45
  const GPT_IMAGE_2_BASE_MODEL: Key := 46
  const VIDEO_RESULT_AUTH_CACHE_TTL: Key := 47
  const DEBUG: Key := 48
  const OBSERVABILITY: Key := 49
  const LOGS: Key := 50
  const LOGGING_TO_FILE: Key := 51
  const LOGS_MAX_TOTAL_SIZE_MB: Key := 52
  const REQUEST_LOG: Key := 53
  const ERROR_LOGS_MAX_FILES: Key := 54
  const USAGE_STATISTICS_ENABLED: Key := 55
  const USAGE: Key := 56
  const REDIS_USAGE_QUEUE_RETENTION_SECONDS: Key := 57
  const PPROF: Key := 58
  const LISTED: Key := 59

  // Names the form or the layout test uses besides; the last six are camelCase spellings.
  const ACCESS: Key := LISTED + 1
  const CREDENTIALS: Key := LISTED + 2
  const API_KEYS: Key := LISTED + 3
  const CLIENT: Key := LISTED + 4
  const OPTIMIZE_MULTI_AGENT_V2: Key := LISTED + 5
  const AUTH: Key := LISTED + 6
  const CONFIG_API_KEY: Key := LISTED + 7
  const API_KEY_ENTRIES: Key := LISTED + 8
  const ENABLE: Key := LISTED + 9
  const CERT: Key := LISTED + 10
  const KEY: Key := LISTED + 11
  const ALLOW_REMOTE: Key := LISTED + 12
  const SECRET_KEY: Key := LISTED + 13
  const DISABLE_CONTROL_PANEL: Key := LISTED + 14
  const DISABLE_AUTO_UPDATE_PANEL: Key := LISTED + 15
  const PANEL_GITHUB_REPOSITORY: Key := LISTED + 16
  const PANEL_REPO: Key := LISTED + 17
  const ADDR: Key := LISTED + 18
  const PLUGINS: Key := LISTED + 19
  const ENABLED: Key := LISTED + 20
  const DIR: Key := LISTED + 21
  const STORE_SOURCES: Key := LISTED + 22
  const STORE_AUTH: Key := LISTED + 23
  const FORCE_WEBSOCKET: Key := LISTED + 24
  const BASISPOINTS: Key := LISTED + 25
  const USER_AGENT: Key := LISTED + 26
  const PACKAGE_VERSION: Key := LISTED + 27
  const RUNTIME_VERSION: Key := LISTED + 28
  const OS: Key := LISTED + 29
  const ARCH: Key := LISTED + 30
  const TIMEOUT: Key := LISTED + 31
  const STABILIZE_DEVICE_PROFILE: Key := LISTED + 32
  const BETA_FEATURES: Key := LISTED + 33
  const FAST_MODE: Key := LISTED + 34
  const DEVICE_CONVERGENCE: Key := LISTED + 35
  const EVENT_NOTIFICATIONS: Key := LISTED + 36
  const INSTANCE_NAME: Key := LISTED + 37
  const PLATFORM: Key := LISTED + 38
  const WEBHOOK: Key := LISTED + 39
  const SECRET: Key := LISTED + 40
  const TURN_STATE_TICKET: Key := LISTED + 41
  const FAIL_CLOSED: Key := LISTED + 42
  const HARVEST_PROXY_URL: Key := LISTED + 43
  const MODELS: Key := LISTED + 44
  const TTL_SECONDS: Key := LISTED + 45
  const REFRESH_BEFORE_SECONDS: Key := LISTED + 46
  const PROBE_INTERVAL_SECONDS: Key := LISTED + 47
  const ATTEMPT_TIMEOUT_SECONDS: Key := LISTED + 48
  const SENSITIVE_WORDS: Key := LISTED + 49
  const SWITCH_PROJECT: Key := LISTED + 50
  const SWITCH_PREVIEW_MODEL: Key := LISTED + 51
  const STRATEGY: Key := LISTED + 52
  const SESSION_AFFINITY: Key := LISTED + 53
  const SESSION_AFFINITY_TTL: Key := LISTED + 54
  const KEEPALIVE_SECONDS: Key := LISTED + 55
  const BOOTSTRAP_RETRIES: Key := LISTED + 56
  const DEFAULT: Key := LISTED + 57
  const DEFAULT_RAW: Key := LISTED + 58
  const OVERRIDE: Key := LISTED + 59
  const OVERRIDE_RAW: Key := LISTED + 60
  const FILTER: Key := LISTED + 61
  const USAGE_STATISTICS_ENABLED_CAMEL: Key := LISTED + 62
  const REDIS_USAGE_QUEUE_RETENTION_SECONDS_CAMEL: Key := LISTED + 63
  const SESSION_AFFINITY_CAMEL: Key := LISTED + 64
  const SESSION_AFFINITY_TTL_CAMEL: Key := LISTED + 65
  const STORE_SOURCES_CAMEL: Key := LISTED + 66
  const STORE_AUTH_CAMEL: Key := LISTED + 67

  predicate Other(k: Key) {
    k >= LISTED
  }

  type Path = seq<Key>

  datatype Mapping = Mapping(legacy: Path, canonical: Path)

  /** The table, in its own order, in four parts. */
  function Rows1(): seq<Mapping> {
    [
      Mapping([CODEX], [OAUTH, PROVIDERS, CODEX]),
      Mapping([HOST], [SERVER, HOST]),
      Mapping([PORT], [SERVER, PORT]),
      Mapping([TLS], [SERVER, TLS]),
      Mapping([COMMERCIAL_MODE], [SERVER, COMMERCIAL_MODE]),
      Mapping([REMOTE_MANAGEMENT], [MANAGEMENT]),
      Mapping([FORCE_MODEL_PREFIX], [ROUTING, FORCE_MODEL_PREFIX]),
      Mapping([REQUEST_RETRY], [ROUTING, RETRY, REQUEST_RETRY]),
      Mapping([MAX_RETRY_CREDENTIALS], [ROUTING, RETRY, MAX_RETRY_CREDENTIALS]),
      Mapping([MAX_RETRY_INTERVAL], [ROUTING, RETRY, MAX_RETRY_INTERVAL])
    ]
  }

  function Rows2(): seq<Mapping> {
    [
      Mapping([DISABLE_COOLING], [ROUTING, COOLDOWN, DISABLE_COOLING]),
      Mapping([SAVE_COOLDOWN_STATUS], [ROUTING, COOLDOWN, SAVE_COOLDOWN_STATUS]),
      Mapping([TRANSIENT_ERROR_COOLDOWN_SECONDS], [ROUTING, COOLDOWN, TRANSIENT_ERROR_COOLDOWN_SECONDS]),
      Mapping([PROXY_URL], [REQUESTS, PROXY_URL]),
      Mapping([PASSTHROUGH_HEADERS], [REQUESTS, PASSTHROUGH_HEADERS]),
      Mapping([NONSTREAM_KEEPALIVE_INTERVAL], [REQUESTS, NONSTREAM_KEEPALIVE_INTERVAL]),
      Mapping([STREAMING], [REQUESTS, STREAMING]),
      Mapping([PAYLOAD], [REQUESTS, PAYLOAD]),
      Mapping([AUTH_DIR], [OAUTH, AUTH_DIR]),
      Mapping([AUTH_AUTO_REFRESH_WORKERS], [OAUTH, AUTH_AUTO_REFRESH_WORKERS])
    ]
  }

  function Rows3(): seq<Mapping> {
    [
      Mapping([WS_AUTH], [OAUTH, PROVIDERS, AISTUDIO, WS_AUTH]),
      Mapping([CODEX_HEADER_DEFAULTS], [OAUTH, PROVIDERS, CODEX, HEADER_DEFAULTS]),
      Mapping([DISABLE_CLAUDE_CLOAK_MODE], [UPSTREAM, CLAUDE, DISABLE_CLAUDE_CLOAK_MODE]),
      Mapping([CLAUDE_HEADER_DEFAULTS], [UPSTREAM, CLAUDE, HEADER_DEFAULTS]),
      Mapping([ANTIGRAVITY_SIGNATURE_CACHE_ENABLED], [OAUTH, PROVIDERS, ANTIGRAVITY, SIGNATURE_CACHE_ENABLED]),
      Mapping([ANTIGRAVITY_SIGNATURE_BYPASS_STRICT], [OAUTH, PROVIDERS, ANTIGRAVITY, SIGNATURE_BYPASS_STRICT]),
      Mapping([QUOTA_EXCEEDED, ANTIGRAVITY_CREDITS], [OAUTH, PROVIDERS, ANTIGRAVITY, ANTIGRAVITY_CREDITS]),
      Mapping([DEVIN], [OAUTH, PROVIDERS, DEVIN]),
      Mapping([DISABLE_IMAGE_GENERATION], [MULTIMEDIA, DISABLE_IMAGE_GENERATION]),
      Mapping([GPT_IMAGE_2_BASE_MODEL], [MULTIMEDIA, GPT_IMAGE_2_BASE_MODEL])
    ]
  }

  function Rows4(): seq<Mapping> {
    [
      Mapping([VIDEO_RESULT_AUTH_CACHE_TTL], [MULTIMEDIA, VIDEO_RESULT_AUTH_CACHE_TTL]),
      Mapping([DEBUG], [OBSERVABILITY, LOGS, DEBUG]),
      Mapping([LOGGING_TO_FILE], [OBSERVABILITY, LOGS, LOGGING_TO_FILE]),
      Mapping([LOGS_MAX_TOTAL_SIZE_MB], [OBSERVABILITY, LOGS, LOGS_MAX_TOTAL_SIZE_MB]),
      Mapping([REQUEST_LOG], [OBSERVABILITY, LOGS, REQUEST_LOG]),
      Mapping([ERROR_LOGS_MAX_FILES], [OBSERVABILITY, LOGS, ERROR_LOGS_MAX_FILES]),
      Mapping([USAGE_STATISTICS_ENABLED], [OBSERVABILITY, USAGE, USAGE_STATISTICS_ENABLED]),
      Mapping([REDIS_USAGE_QUEUE_RETENTION_SECONDS], [OBSERVABILITY, USAGE, REDIS_USAGE_QUEUE_RETENTION_SECONDS]),
      Mapping([PPROF], [OBSERVABILITY, PPROF])
    ]
  }

  function Mappings(): seq<Mapping> {
    Rows1() + Rows2() + Rows3() + Rows4()
  }

  // ----- findVisualConfigV8Mapping -----

  /** Of two matching rows the one with the longer legacy path wins, the earlier one on a tie. */
  function BestMapping(table: seq<Mapping>, path: Path): Option<Mapping> {
    if |table| == 0 then None
    else
      var best, m := BestMapping(table[..|table| - 1], path), table[|table| - 1];
      if m.legacy <= path && (best.None? || |m.legacy| > |best.value.legacy|) then Some(m) else best
  }

  method FindMapping(table: seq<Mapping>, path: Path) returns (best: Option<Mapping>)
    ensures best == BestMapping(table, path)
  {
    best := None;
    for i := 0 to |table|
      invariant best == BestMapping(table[..i], path)
    {
      assert table[..i + 1][..i] == table[..i];
      var m := table[i];
      if !(m.legacy <= path) {
        continue;
      }
      if best.None? || |m.legacy| > |best.value.legacy| {
        best := Some(m);
      }
    }
    assert table[..|table|] == table;
  }

  /** The row found matches, and no matching row has a longer legacy path. */
  lemma {:induction false} BestMappingIsLongest(table: seq<Mapping>, path: Path)
    ensures match BestMapping(table, path)
            case Some(best) => best in table && best.legacy <= path
              && forall m | m in table && m.legacy <= path :: |m.legacy| <= |best.legacy|
            case None => forall m | m in table :: !(m.legacy <= path)
  {
    if |table| > 0 {
      BestMappingIsLongest(table[..|table| - 1], path);
      assert table == table[..|table| - 1] + [table[|table| - 1]];
    }
  }

  function MappingOf(path: Path): Option<Mapping> {
    BestMapping(Mappings(), path)
  }

  /** mapVisualConfigV8Path. */
  function Canonical(path: Path): Path {
    match MappingOf(path)
    case Some(m) => if m.legacy <= path then m.canonical + path[|m.legacy|..] else path
    case None => path
  }

  /** getHistoricalV8Aliases. */
  function Historical(path: Path): seq<Path> {
    if path == [DISABLE_CLAUDE_CLOAK_MODE] then [[OAUTH, PROVIDERS, CLAUDE, DISABLE_CLAUDE_CLOAK_MODE]]
    else if |path| > 0 && path[0] == CLAUDE_HEADER_DEFAULTS then [[OAUTH, PROVIDERS, CLAUDE, HEADER_DEFAULTS] + path[1..]]
    else []
  }

  /** The other places a moved field may still be found at, in the order they are cleaned up. */
  function Alternatives(path: Path): seq<Path> {
    if Canonical(path) == path then [] else Historical(path) + [path]
  }

  /** Every place the editor may read the field from. */
  function Locations(path: Path): seq<Path> {
    [Canonical(path)] + Alternatives(path)
  }

  ghost predicate Separate(p: Path, q: Path) {
    forall a, b | a in Locations(p) && b in Locations(q) :: !Comparable(a, b)
  }

  // ----- What holds of every row of the table -----

  predicate V8Root(key: Key) {
    key in {OAUTH, SERVER, MANAGEMENT, ROUTING, REQUESTS, UPSTREAM, MULTIMEDIA, OBSERVABILITY}
  }

  const HISTORICAL: Path := [OAUTH, PROVIDERS, CLAUDE]

  /** The last key of a row's legacy path. */
  function Name(m: Mapping): Key {
    if |m.legacy| == 0 then NONE else m.legacy[|m.legacy| - 1]
  }

  const NONE: Key := LISTED

  /** The row that a path in the V8 layout belongs to, read off its first keys: its name, and how long its own path is. */
  function Owner(c: Path): (Key, nat) {
    if |c| > 0 && c[0] == MANAGEMENT then (REMOTE_MANAGEMENT, 1)
    else if |c| < 2 then (NONE, 0)
    else if c[0] == OAUTH then
      if c[1] != PROVIDERS then (c[1], 2)
      else if |c| < 3 then (NONE, 0)
      else if c[2] == CODEX then (if |c| > 3 && c[3] == HEADER_DEFAULTS then (CODEX_HEADER_DEFAULTS, 4) else (CODEX, 3))
      else if c[2] == DEVIN then (DEVIN, 3)
      else if |c| < 4 then (NONE, 0)
      else if c[3] == SIGNATURE_CACHE_ENABLED then (ANTIGRAVITY_SIGNATURE_CACHE_ENABLED, 4)
      else if c[3] == SIGNATURE_BYPASS_STRICT then (ANTIGRAVITY_SIGNATURE_BYPASS_STRICT, 4)
      else (c[3], 4)
    else if c[0] == UPSTREAM then
      if |c| < 3 then (NONE, 0) else if c[2] == HEADER_DEFAULTS then (CLAUDE_HEADER_DEFAULTS, 3) else (c[2], 3)
    else if c[0] == ROUTING then
      if c[1] == FORCE_MODEL_PREFIX then (c[1], 2) else if |c| < 3 then (NONE, 0) else (c[2], 3)
    else if c[0] == OBSERVABILITY then
      if c[1] == PPROF then (c[1], 2) else if |c| < 3 then (NONE, 0) else (c[2], 3)
    else (c[1], 2)
  }

  /** The one overlap in the table: codex-header-defaults moved to a child of where codex moved. */
  predicate InCodexHeaders(m: Mapping, c: Path) {
    Name(m) == CODEX && |c| > 3 && c[3] == HEADER_DEFAULTS
  }

  /** What holds of a row by itself. */
  predicate RowShape(m: Mapping) {
    && 0 < |m.legacy| <= 2 && 0 < |m.canonical| <= 4
    && (|m.legacy| == 2 <==> Name(m) == ANTIGRAVITY_CREDITS) && (|m.legacy| == 2 <==> m.legacy[0] == QUOTA_EXCEEDED)
    && V8Root(m.canonical[0]) && !V8Root(m.legacy[0])
    && (m.legacy[0] == CODEX ==> |m.canonical| == 3)
    && (|m.canonical| == 1 ==> m.canonical[0] == MANAGEMENT)
    && (m.canonical[0] == ROUTING ==> |m.canonical| > 1 && m.canonical[1] in {FORCE_MODEL_PREFIX, RETRY, COOLDOWN})
    && !Other(m.legacy[0]) && (|m.canonical| > 1 ==> !Other(m.canonical[1]))
    && !(m.canonical[0] == OAUTH && |m.canonical| < 2)
    && !(m.canonical[0] == OAUTH && m.canonical[1] == PROVIDERS && (|m.canonical| < 3 || m.canonical[2] == CLAUDE))
  }

  predicate RowOwns(m: Mapping) {
    RowShape(m) && Owner(m.canonical) == (Name(m), |m.canonical|)
  }

  lemma Rows1Own(m: Mapping)
    requires m in Rows1()
    ensures RowOwns(m)
  {
  }

  lemma Rows2Own(m: Mapping)
    requires m in Rows2()
    ensures RowOwns(m)
  {
  }

  lemma Rows3Own(m: Mapping)
    requires m in Rows3()
    ensures RowOwns(m)
  {
  }

  lemma Rows4Own(m: Mapping)
    requires m in Rows4()
    ensures RowOwns(m)
  {
  }

  lemma RowsOwn(m: Mapping)
    requires m in Mappings()
    ensures RowOwns(m)
  {
    hide RowOwns, Rows1, Rows2, Rows3, Rows4;
    if m in Rows1() { Rows1Own(m); }
    else if m in Rows2() { Rows2Own(m); }
    else if m in Rows3() { Rows3Own(m); }
    else { Rows4Own(m); }
  }

  /** Below where a row moved to, only the overlap belongs to another row. */
  lemma OwnerBelow(p: Path, c: Path)
    requires 0 < |p| <= 4 && p <= c && Owner(p).1 == |p|
    requires !(Owner(p).0 == CODEX && |c| > 3 && c[3] == HEADER_DEFAULTS)
    ensures Owner(c) == Owner(p)
  {
    Aligned(p, c);
  }

  lemma NotHistorical(p: Path)
    ensures Comparable(HISTORICAL, p) ==> (|p| > 0 ==> p[0] == OAUTH)
    ensures Comparable(HISTORICAL, p) ==> (|p| > 1 ==> p[1] == PROVIDERS)
    ensures Comparable(HISTORICAL, p) ==> (|p| > 2 ==> p[2] == CLAUDE)
  {
  }

  lemma Aligned(p: Path, c: Path)
    requires |p| <= 4
    ensures p <= c ==> |p| <= |c| && (|p| > 0 ==> p[0] == c[0]) && (|p| > 1 ==> p[1] == c[1])
    ensures p <= c ==> (|p| > 2 ==> p[2] == c[2]) && (|p| > 3 ==> p[3] == c[3])
  {
  }

  ghost predicate RowFacts(m: Mapping, c: Path) {
    && RowShape(m)
    && !Comparable(HISTORICAL, m.canonical)
    && (m.canonical <= c && !InCodexHeaders(m, c) ==> Owner(c) == (Name(m), |m.canonical|))
  }

  lemma TableFacts(m: Mapping, c: Path)
    requires m in Mappings()
    ensures RowFacts(m, c)
  {
    hide Owner, Mappings, Name;
    RowsOwn(m);
    NotHistorical(m.canonical);
    if m.canonical <= c && !InCodexHeaders(m, c) { OwnerBelow(m.canonical, c); }
  }

  /** Two rows that own the same path are the same row. */
  lemma OneOwner(m: Mapping, n: Mapping, c: Path)
    requires RowShape(m) && RowShape(n) && m.canonical <= c && n.canonical <= c
    requires Name(m) == Name(n) && |m.canonical| == |n.canonical|
    ensures m == n
  {
    assert m.canonical == c[..|m.canonical|] == n.canonical;
    assert |m.legacy| == |n.legacy|;
    assert m.legacy == n.legacy;
  }

  // ----- The places of one field, and of two fields, do not overlap -----

  predicate Mapped(p: Path) {
    MappingOf(p).Some?
  }

  lemma MappedFacts(p: Path, c: Path)
    requires Mapped(p)
    ensures var m := MappingOf(p).value;
      && m.legacy <= p && RowFacts(m, c)
      && Canonical(p) == m.canonical + p[|m.legacy|..]
    ensures |p| > 0 && !V8Root(p[0]) && |Canonical(p)| > 0 && V8Root(Canonical(p)[0])
    ensures Alternatives(p) == Historical(p) + [p]
  {
    hide Mappings, BestMapping, Owner;
    BestMappingIsLongest(Mappings(), p);
    TableFacts(MappingOf(p).value, c);
  }

  lemma UnmappedFacts(p: Path)
    requires !Mapped(p)
    ensures Canonical(p) == p && Alternatives(p) == []
  {
  }

  /** A path that overlaps no place of the V8 layout and no historical place. */
  ghost predicate Clear(p: Path) {
    && |p| > 0
    && !Comparable(HISTORICAL, p)
    && forall m | m in Mappings() :: !Comparable(m.canonical, p)
  }

  /** What a form field's path must be like. */
  ghost predicate Regular(p: Path) {
    if Mapped(p) then !Comparable([CODEX, HEADER_DEFAULTS], p) else Clear(p)
  }

  lemma HistoricalFacts(p: Path, h: Path)
    requires h in Historical(p)
    ensures HISTORICAL <= h && |h| > 3 && V8Root(h[0])
  {
  }

  /** The canonical, historical and legacy place of one field part ways. */
  lemma PlacesApart(p: Path, h: Path)
    requires Mapped(p)
    ensures !Comparable(Canonical(p), p)
    ensures h in Historical(p) ==> !Comparable(Canonical(p), h) && !Comparable(h, p)
  {
    hide Mappings, BestMapping, Owner, Historical, Canonical, V8Root;
    MappedFacts(p, []);
    var m := MappingOf(p).value;
    if h in Historical(p) {
      HistoricalFacts(p, h);
      ExtensionsPart(HISTORICAL, m.canonical, h, Canonical(p));
    }
  }

  /** Outside the one overlap of the table, a place in the V8 layout tells which row it belongs to. */
  lemma OwnerFound(p: Path, c: Path)
    requires Regular(p) && Mapped(p) && Canonical(p) <= c
    ensures Owner(c) == (Name(MappingOf(p).value), |MappingOf(p).value.canonical|)
  {
    hide Mappings, BestMapping, Owner, V8Root;
    MappedFacts(p, c);
    var m := MappingOf(p).value;
    assert m.canonical <= c;
    if InCodexHeaders(m, c) { BelongsToCodexHeaders(p, m, c); }
  }

  /** A path below codex that is moved under its header defaults was one of them before. */
  lemma BelongsToCodexHeaders(p: Path, m: Mapping, c: Path)
    requires m.legacy == [CODEX] && |m.canonical| == 3 && m.legacy <= p
    requires m.canonical + p[1..] <= c && |c| > 3 && c[3] == HEADER_DEFAULTS
    ensures Comparable([CODEX, HEADER_DEFAULTS], p)
  {
    assert p[0] == CODEX;
    if |p| == 1 {
      assert p <= [CODEX, HEADER_DEFAULTS];
    } else {
      assert (m.canonical + p[1..])[3] == p[1] == c[3];
      assert p[..2] == [CODEX, HEADER_DEFAULTS];
    }
  }

  /** Moving two fields to the V8 layout keeps them apart. */
  lemma CanonicalsApart(p: Path, q: Path)
    requires Regular(p) && Regular(q) && Mapped(p) && Mapped(q) && !Comparable(p, q)
    ensures !Comparable(Canonical(p), Canonical(q))
  {
    hide Mappings, BestMapping, Owner;
    var m, n := MappingOf(p).value, MappingOf(q).value;
    MappedFacts(p, []);
    MappedFacts(q, []);
    if m == n {
      SameStem(m.legacy, m.canonical, p, q);
    } else if Comparable(Canonical(p), Canonical(q)) {
      SameOwner(p, q);
    }
  }

  lemma SameOwner(p: Path, q: Path)
    requires Regular(p) && Regular(q) && Mapped(p) && Mapped(q) && Comparable(Canonical(p), Canonical(q))
    ensures MappingOf(p) == MappingOf(q)
  {
    hide Mappings, BestMapping, Owner, Canonical, Regular, Name, V8Root;
    var c := if Canonical(p) <= Canonical(q) then Canonical(q) else Canonical(p);
    OwnerFound(p, c);
    OwnerFound(q, c);
    MappedFacts(p, c);
    MappedFacts(q, c);
    OneOwner(MappingOf(p).value, MappingOf(q).value, c);
  }

  lemma SameStem(legacy: Path, canonical: Path, p: Path, q: Path)
    requires legacy <= p && legacy <= q && !Comparable(p, q)
    ensures !Comparable(canonical + p[|legacy|..], canonical + q[|legacy|..])
  {
    Stem(legacy, canonical, p, q);
    Stem(legacy, canonical, q, p);
  }

  lemma Stem(legacy: Path, canonical: Path, p: Path, q: Path)
    requires legacy <= p && legacy <= q
    ensures canonical + p[|legacy|..] <= canonical + q[|legacy|..] ==> p <= q
  {
    var a, b := canonical + p[|legacy|..], canonical + q[|legacy|..];
    if a <= b {
      forall i | |legacy| <= i < |p| ensures p[i] == q[i] {
        assert a[|canonical| + i - |legacy|] == p[i] && b[|canonical| + i - |legacy|] == q[i];
      }
      assert forall i | 0 <= i < |legacy| :: p[i] == q[i];
      assert p == q[..|p|];
    }
  }

  lemma HistoricalsApart(p: Path, q: Path, a: Path, b: Path)
    requires !Comparable(p, q) && a in Historical(p) && b in Historical(q)
    ensures !Comparable(a, b)
  {
    var c, h := [DISABLE_CLAUDE_CLOAK_MODE], [CLAUDE_HEADER_DEFAULTS];
    if p == c {
      assert q != c;
      assert a[3] != b[3];
    } else if q == c {
      assert a[3] != b[3];
    } else {
      assert h <= p && h <= q;
      SameStem(h, HISTORICAL + [HEADER_DEFAULTS], p, q);
      assert a == HISTORICAL + [HEADER_DEFAULTS] + p[1..] && b == HISTORICAL + [HEADER_DEFAULTS] + q[1..];
    }
  }

  lemma MappedFieldsApart(p: Path, q: Path, a: Path, b: Path)
    requires Regular(p) && Regular(q) && Mapped(p) && Mapped(q) && !Comparable(p, q)
    requires a in Locations(p) && b in Locations(q)
    ensures !Comparable(a, b)
  {
    hide Mappings, BestMapping, Owner, Historical, Canonical, V8Root;
    MappedFacts(p, []);
    MappedFacts(q, []);
    var m, n := MappingOf(p).value, MappingOf(q).value;
    if a in Historical(p) {
      HistoricalFacts(p, a);
      if b in Historical(q) {
        HistoricalFacts(q, b);
        HistoricalsApart(p, q, a, b);
      } else {
        ExtensionsPart(HISTORICAL, n.canonical, a, Canonical(q));
      }
    } else if b in Historical(q) {
      HistoricalFacts(q, b);
      ExtensionsPart(HISTORICAL, m.canonical, b, Canonical(p));
    } else if a == Canonical(p) && b == Canonical(q) {
      CanonicalsApart(p, q);
    }
  }

  lemma MixedFieldsApart(p: Path, q: Path, a: Path)
    requires Regular(p) && Regular(q) && Mapped(p) && !Mapped(q) && !Comparable(p, q)
    requires a in Locations(p)
    ensures !Comparable(a, q)
  {
    hide Mappings, BestMapping, Owner, Historical, Canonical, V8Root;
    MappedFacts(p, []);
    var m := MappingOf(p).value;
    BestMappingIsLongest(Mappings(), p);
    if a in Historical(p) {
      HistoricalFacts(p, a);
      ExtensionsPart(HISTORICAL, q, a, q);
    } else if a == Canonical(p) {
      ExtensionsPart(m.canonical, q, a, q);
    }
  }

  /** Two fields of the form share no place, and no place of one lies inside a place of the other. */
  lemma FieldsApart(p: Path, q: Path)
    requires Regular(p) && Regular(q) && !Comparable(p, q)
    ensures Separate(p, q)
  {
    hide Mappings, BestMapping, Owner, Historical, Canonical, Regular;
    forall a, b | a in Locations(p) && b in Locations(q) ensures !Comparable(a, b) {
      if Mapped(p) && Mapped(q) {
        MappedFieldsApart(p, q, a, b);
      } else if Mapped(p) {
        UnmappedFacts(q);
        MixedFieldsApart(p, q, a);
      } else if Mapped(q) {
        UnmappedFacts(p);
        MixedFieldsApart(q, p, b);
      } else {
        UnmappedFacts(p);
        UnmappedFacts(q);
      }
    }
  }

  /** Names the table does not know are safe anywhere they can be told apart from its rows. */
  lemma FormFieldsRegular(p: Path)
    requires |p| > 0
    requires Other(p[0]) || (|p| > 1 && p[0] in {ROUTING, OBSERVABILITY, QUOTA_EXCEEDED} && Other(p[1]))
    ensures Regular(p) && !Mapped(p)
  {
    hide Mappings, BestMapping, Owner;
    assert !Comparable(HISTORICAL, p) by { NotHistorical(p); }
    BestMappingIsLongest(Mappings(), p);
    forall m | m in Mappings() ensures !(m.legacy <= p) && !Comparable(m.canonical, p) {
      TableFacts(m, []);
    }
  }

  // ----- Groups: the maps that hold several fields -----

  /** The maps the editor makes and clears away around the fields it writes. */
  ghost predicate Group(g: Path) {
    Regular(g) || g == [CODEX] || g == [QUOTA_EXCEEDED] || g == [ROUTING]
  }

  /** No place of the field is on the way to a place of the group. */
  ghost predicate Spares(g: Path, q: Path) {
    forall a, b | a in Locations(q) && b in Locations(g) :: !(a <= b)
  }

  lemma MappedGroupAbove(g: Path, q: Path, a: Path, b: Path)
    requires Mapped(g) && Mapped(q) && Regular(q) && (Regular(g) || g == [CODEX])
    requires a in Locations(q) && b in Locations(g) && a <= b
    ensures q <= g
  {
    hide Mappings, BestMapping, Owner, Historical, Canonical, V8Root, Regular;
    MappedFacts(g, []);
    MappedFacts(q, []);
    var m, n := MappingOf(g).value, MappingOf(q).value;
    if b in Historical(g) {
      HistoricalFacts(g, b);
      CommonExtension(HISTORICAL, n.canonical, b);
      assert a in Historical(q);
      HistoricalGroup(g, q, a, b);
    } else if a in Historical(q) {
      HistoricalFacts(q, a);
      CommonExtension(HISTORICAL, m.canonical, b);
    } else if b == Canonical(g) && a == Canonical(q) {
      OwnerFound(q, b);
      GroupOwner(g);
      OneOwner(m, n, b);
      Stem(m.legacy, m.canonical, q, g);
    }
  }

  lemma GroupOwner(g: Path)
    requires Mapped(g) && (Regular(g) || g == [CODEX])
    ensures Owner(Canonical(g)) == (Name(MappingOf(g).value), |MappingOf(g).value.canonical|)
  {
    hide Mappings, BestMapping, Owner, V8Root, Regular;
    if Regular(g) {
      OwnerFound(g, Canonical(g));
    } else {
      MappedFacts(g, Canonical(g));
    }
  }

  lemma HistoricalGroup(g: Path, q: Path, a: Path, b: Path)
    requires a in Historical(q) && b in Historical(g) && a <= b
    ensures q <= g
  {
    var c, h := [DISABLE_CLAUDE_CLOAK_MODE], [CLAUDE_HEADER_DEFAULTS];
    assert a[3] == b[3];
    if q == c {
      assert g == c;
    } else {
      assert g != c && h <= q && h <= g;
      Stem(h, HISTORICAL + [HEADER_DEFAULTS], q, g);
      assert a == HISTORICAL + [HEADER_DEFAULTS] + q[1..] && b == HISTORICAL + [HEADER_DEFAULTS] + g[1..];
    }
  }

  lemma UnmappedGroupAbove(g: Path, q: Path, a: Path)
    requires !Mapped(g) && Regular(q) && Group(g) && a in Locations(q) && a <= g
    ensures q <= g
  {
    hide Mappings, BestMapping, Owner, Historical, Canonical;
    if Mapped(q) {
      MappedFacts(q, []);
      var n := MappingOf(q).value;
      BestMappingIsLongest(Mappings(), q);
      if a in Historical(q) { HistoricalFacts(q, a); }
      assert HISTORICAL <= a ==> Comparable(HISTORICAL, g);
      assert n.canonical <= a ==> Comparable(n.canonical, g);
      assert |a| > 0 ==> a[0] == g[0];
    } else {
      UnmappedFacts(q);
    }
  }

  lemma ShortGroupsUnmapped()
    ensures !Mapped([QUOTA_EXCEEDED]) && !Mapped([ROUTING])
  {
    hide Mappings, BestMapping, Owner;
    var g, h := [QUOTA_EXCEEDED], [ROUTING];
    BestMappingIsLongest(Mappings(), g);
    BestMappingIsLongest(Mappings(), h);
    if Mapped(g) { MappedFacts(g, []); }
    if Mapped(h) { MappedFacts(h, []); }
  }

  lemma UnmappedFieldAbove(g: Path, q: Path, b: Path)
    requires Mapped(g) && Clear(q) && (Regular(g) || g == [CODEX])
    requires b in Locations(g) && q <= b
    ensures q <= g
  {
    hide Mappings, BestMapping, Owner, Historical, Canonical, Regular, V8Root;
    MappedFacts(g, []);
    BestMappingIsLongest(Mappings(), g);
    var m := MappingOf(g).value;
    if b in Historical(g) {
      HistoricalFacts(g, b);
      CommonExtension(HISTORICAL, q, b);
    } else {
      CommonExtension(m.canonical, q, b);
    }
  }

  lemma GroupAbove(g: Path, q: Path, a: Path, b: Path)
    requires Regular(q) && Group(g) && a in Locations(q) && b in Locations(g) && a <= b
    ensures q <= g
  {
    hide Mappings, BestMapping, Owner, Historical, Canonical;
    ShortGroupsUnmapped();
    if !Mapped(g) {
      UnmappedFacts(g);
      UnmappedGroupAbove(g, q, a);
    } else if Mapped(q) {
      MappedGroupAbove(g, q, a, b);
    } else {
      UnmappedFacts(q);
      UnmappedFieldAbove(g, q, b);
    }
  }

  /** Making or clearing away a group touches no field but those the group lies under. */
  lemma GroupSpares(g: Path, q: Path)
    requires Regular(q) && Group(g) && !(q <= g)
    ensures Spares(g, q)
  {
    hide Regular, Group, Locations;
    forall a, b | a in Locations(q) && b in Locations(g) ensures !(a <= b) {
      if a <= b { GroupAbove(g, q, a, b); }
    }
  }
}
