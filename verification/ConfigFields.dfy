/**
  What the form shows after a save, field by field: the fields of each kind by
  their paths, and for every one of them what is read back when it was edited,
  and that it reads as before when it was not.
 */
module ConfigFields {
  import opened YamlTree
  import opened ConfigPaths
  import opened ConfigSave
  import opened ConfigLens
  import opened ConfigForm
  import opened ConfigOutcome
  import opened Decimals

  // ----- The fields -----

  const SERVER_FLAGS: set<Path> := {
    [PPROF, ENABLE], [PLUGINS, ENABLED], [WS_AUTH], [QUOTA_EXCEEDED, SWITCH_PROJECT], [QUOTA_EXCEEDED, SWITCH_PREVIEW_MODEL],
    [QUOTA_EXCEEDED, ANTIGRAVITY_CREDITS]
  }

  const PROVIDER_FLAGS: set<Path> := {
    [CODEX, FORCE_WEBSOCKET], [CODEX, BASISPOINTS, ENABLED], [ANTIGRAVITY_SIGNATURE_CACHE_ENABLED],
    [CODEX, DEVICE_CONVERGENCE], [CODEX, TURN_STATE_TICKET, ENABLED], [CODEX, TURN_STATE_TICKET, FAIL_CLOSED]
  }

  /** Switches that are always written as they are set. */
  const FLAGS: set<Path> := SERVER_FLAGS + PROVIDER_FLAGS

  const SERVER_SWITCHES: set<Path> := {
    [TLS, ENABLE], [REMOTE_MANAGEMENT, ALLOW_REMOTE], [REMOTE_MANAGEMENT, DISABLE_CONTROL_PANEL],
    [REMOTE_MANAGEMENT, DISABLE_AUTO_UPDATE_PANEL], [DEBUG], [COMMERCIAL_MODE]
  }

  const REQUEST_SWITCHES: set<Path> := {
    [USAGE_STATISTICS_ENABLED], [LOGGING_TO_FILE], [REQUEST_LOG], [FORCE_MODEL_PREFIX], [PASSTHROUGH_HEADERS]
  }

  const PROVIDER_SWITCHES: set<Path> := {
    [DISABLE_COOLING], [SAVE_COOLDOWN_STATUS], [DISABLE_CLAUDE_CLOAK_MODE], [ANTIGRAVITY_SIGNATURE_BYPASS_STRICT],
    [CLAUDE_HEADER_DEFAULTS, STABILIZE_DEVICE_PROFILE], [ROUTING, SESSION_AFFINITY]
  }

  /** Switches that are not written where they are off and were nowhere. */
  const SWITCHES: set<Path> := SERVER_SWITCHES + REQUEST_SWITCHES + PROVIDER_SWITCHES

  const SERVER_TEXTS: set<Path> := {
    [HOST], [TLS, CERT], [TLS, KEY], [REMOTE_MANAGEMENT, PANEL_GITHUB_REPOSITORY], [AUTH_DIR], [PPROF, ADDR]
  }

  const REQUEST_TEXTS: set<Path> := {
    [PROXY_URL], [GPT_IMAGE_2_BASE_MODEL], [VIDEO_RESULT_AUTH_CACHE_TTL], [CODEX_HEADER_DEFAULTS, USER_AGENT],
    [CODEX_HEADER_DEFAULTS, BETA_FEATURES], [ROUTING, SESSION_AFFINITY_TTL]
  }

  const CLAUDE_TEXTS: set<Path> := {
    [CLAUDE_HEADER_DEFAULTS, USER_AGENT], [CLAUDE_HEADER_DEFAULTS, PACKAGE_VERSION],
    [CLAUDE_HEADER_DEFAULTS, RUNTIME_VERSION], [CLAUDE_HEADER_DEFAULTS, OS], [CLAUDE_HEADER_DEFAULTS, ARCH],
    [CLAUDE_HEADER_DEFAULTS, TIMEOUT]
  }

  /** Texts that are not written where they are blank and were nowhere. */
  const TEXTS: set<Path> := SERVER_TEXTS + REQUEST_TEXTS + CLAUDE_TEXTS

  const SERVER_NUMBERS: set<Path> := {
    [PORT], [LOGS_MAX_TOTAL_SIZE_MB], [ERROR_LOGS_MAX_FILES], [REDIS_USAGE_QUEUE_RETENTION_SECONDS], [REQUEST_RETRY],
    [MAX_RETRY_CREDENTIALS]
  }

  const REQUEST_NUMBERS: set<Path> := {
    [MAX_RETRY_INTERVAL], [TRANSIENT_ERROR_COOLDOWN_SECONDS], [AUTH_AUTO_REFRESH_WORKERS], [STREAMING, KEEPALIVE_SECONDS],
    [STREAMING, BOOTSTRAP_RETRIES], [NONSTREAM_KEEPALIVE_INTERVAL]
  }

  const TICKET_NUMBERS: set<Path> := {
    [CODEX, TURN_STATE_TICKET, TTL_SECONDS], [CODEX, TURN_STATE_TICKET, REFRESH_BEFORE_SECONDS],
    [CODEX, TURN_STATE_TICKET, PROBE_INTERVAL_SECONDS], [CODEX, TURN_STATE_TICKET, ATTEMPT_TIMEOUT_SECONDS]
  }

  /** Whole numbers. */
  const NUMBERS: set<Path> := SERVER_NUMBERS + REQUEST_NUMBERS + TICKET_NUMBERS

  /** What the serializers make of rules, if there are any. */
  const RULES: set<Path> := {
    [PLUGINS, STORE_AUTH], [PAYLOAD, DEFAULT], [PAYLOAD, DEFAULT_RAW], [PAYLOAD, OVERRIDE], [PAYLOAD, OVERRIDE_RAW],
    [PAYLOAD, FILTER]
  }

  // ----- Where the save plans them -----

  lemma ServerFlagPlanned(dirty: set<Path>, form: Form, v8: bool, source: Doc, field: Path) returns (k: nat)
    requires field in SERVER_FLAGS
    ensures k < PARTS && Guarded(field in dirty, Set(field, Value(Leaf(Bool(form.flag(field)))))) in Part(k, dirty, form, v8, source)
  {
    var g := Guarded(field in dirty, Set(field, Value(Leaf(Bool(form.flag(field))))));
    if field == [PPROF, ENABLE] {
      k := 3;
      assert LogsPart(dirty, form)[2] == g;
    } else if field == [PLUGINS, ENABLED] {
      k := 5;
      assert PluginsPart(dirty, form)[1] == g;
    } else if field == [WS_AUTH] {
      k := 8;
      assert MediaPart(dirty, form)[4] == g;
    } else if field == [QUOTA_EXCEEDED, SWITCH_PROJECT] {
      k := 20;
      assert QuotaPart(dirty, form)[1] == g;
    } else if field == [QUOTA_EXCEEDED, SWITCH_PREVIEW_MODEL] {
      k := 20;
      assert QuotaPart(dirty, form)[2] == g;
    } else {
      k := 20;
      assert QuotaPart(dirty, form)[3] == g;
    }
  }

  lemma ProviderFlagPlanned(dirty: set<Path>, form: Form, v8: bool, source: Doc, field: Path) returns (k: nat)
    requires field in PROVIDER_FLAGS
    ensures k < PARTS && Guarded(field in dirty, Set(field, Value(Leaf(Bool(form.flag(field)))))) in Part(k, dirty, form, v8, source)
  {
    var g := Guarded(field in dirty, Set(field, Value(Leaf(Bool(form.flag(field))))));
    if field == [CODEX, FORCE_WEBSOCKET] {
      k := 9;
      assert ProvidersPart(dirty, form)[0] == g;
    } else if field == [CODEX, BASISPOINTS, ENABLED] {
      k := 9;
      assert ProvidersPart(dirty, form)[1] == g;
    } else if field == [ANTIGRAVITY_SIGNATURE_CACHE_ENABLED] {
      k := 9;
      assert ProvidersPart(dirty, form)[2] == g;
    } else if field == [CODEX, DEVICE_CONVERGENCE] {
      k := 11;
      assert CodexPart(dirty, form)[6] == g;
    } else if field == [CODEX, TURN_STATE_TICKET, ENABLED] {
      k := 13;
      assert TicketsPart(dirty, form)[1] == g;
    } else {
      k := 13;
      assert TicketsPart(dirty, form)[3] == g;
    }
  }

  lemma FlagPlanned(dirty: set<Path>, form: Form, v8: bool, source: Doc, field: Path) returns (k: nat)
    requires field in FLAGS
    ensures k < PARTS && Guarded(field in dirty, Set(field, Value(Leaf(Bool(form.flag(field)))))) in Part(k, dirty, form, v8, source)
  {
    hide Part;
    if field in SERVER_FLAGS {
      k := ServerFlagPlanned(dirty, form, v8, source, field);
    } else {
      k := ProviderFlagPlanned(dirty, form, v8, source, field);
    }
  }

  lemma ServerSwitchPlanned(dirty: set<Path>, form: Form, v8: bool, source: Doc, field: Path) returns (k: nat)
    requires field in SERVER_SWITCHES
    ensures k < PARTS && Guarded(field in dirty, Set(field, Boolean(form.flag(field)))) in Part(k, dirty, form, v8, source)
  {
    var g := Guarded(field in dirty, Set(field, Boolean(form.flag(field))));
    if field == [TLS, ENABLE] {
      k := 0;
      assert ServerPart(dirty, form)[3] == g;
    } else if field == [REMOTE_MANAGEMENT, ALLOW_REMOTE] {
      k := 1;
      assert ManagementPart(dirty, form)[1] == g;
    } else if field == [REMOTE_MANAGEMENT, DISABLE_CONTROL_PANEL] {
      k := 1;
      assert ManagementPart(dirty, form)[3] == g;
    } else if field == [REMOTE_MANAGEMENT, DISABLE_AUTO_UPDATE_PANEL] {
      k := 1;
      assert ManagementPart(dirty, form)[4] == g;
    } else if field == [DEBUG] {
      k := 3;
      assert LogsPart(dirty, form)[0] == g;
    } else {
      k := 3;
      assert LogsPart(dirty, form)[5] == g;
    }
  }

  lemma RequestSwitchPlanned(dirty: set<Path>, form: Form, v8: bool, source: Doc, field: Path) returns (k: nat)
    requires field in REQUEST_SWITCHES
    ensures k < PARTS && Guarded(field in dirty, Set(field, Boolean(form.flag(field)))) in Part(k, dirty, form, v8, source)
  {
    var g := Guarded(field in dirty, Set(field, Boolean(form.flag(field))));
    if field == [USAGE_STATISTICS_ENABLED] {
      k := 4;
      assert UsagePart(dirty, form)[0] == g;
    } else if field == [LOGGING_TO_FILE] {
      k := 4;
      assert UsagePart(dirty, form)[1] == g;
    } else if field == [REQUEST_LOG] {
      k := 4;
      assert UsagePart(dirty, form)[2] == g;
    } else if field == [FORCE_MODEL_PREFIX] {
      k := 6;
      assert RequestsPart(dirty, form)[1] == g;
    } else {
      k := 6;
      assert RequestsPart(dirty, form)[2] == g;
    }
  }

  lemma ProviderSwitchPlanned(dirty: set<Path>, form: Form, v8: bool, source: Doc, field: Path) returns (k: nat)
    requires field in PROVIDER_SWITCHES
    ensures k < PARTS && Guarded(field in dirty, Set(field, Boolean(form.flag(field)))) in Part(k, dirty, form, v8, source)
  {
    var g := Guarded(field in dirty, Set(field, Boolean(form.flag(field))));
    if field == [DISABLE_COOLING] {
      k := 7;
      assert RetryPart(dirty, form)[1] == g;
    } else if field == [SAVE_COOLDOWN_STATUS] {
      k := 7;
      assert RetryPart(dirty, form)[2] == g;
    } else if field == [DISABLE_CLAUDE_CLOAK_MODE] {
      k := 7;
      assert RetryPart(dirty, form)[4] == g;
    } else if field == [ANTIGRAVITY_SIGNATURE_BYPASS_STRICT] {
      k := 9;
      assert ProvidersPart(dirty, form)[3] == g;
    } else if field == [CLAUDE_HEADER_DEFAULTS, STABILIZE_DEVICE_PROFILE] {
      k := 10;
      assert ClaudePart(dirty, form)[7] == g;
    } else {
      k := 21;
      assert RoutingPart(dirty, form)[2] == g;
    }
  }

  lemma SwitchPlanned(dirty: set<Path>, form: Form, v8: bool, source: Doc, field: Path) returns (k: nat)
    requires field in SWITCHES
    ensures k < PARTS && Guarded(field in dirty, Set(field, Boolean(form.flag(field)))) in Part(k, dirty, form, v8, source)
  {
    hide Part;
    if field in SERVER_SWITCHES {
      k := ServerSwitchPlanned(dirty, form, v8, source, field);
    } else if field in REQUEST_SWITCHES {
      k := RequestSwitchPlanned(dirty, form, v8, source, field);
    } else {
      k := ProviderSwitchPlanned(dirty, form, v8, source, field);
    }
  }

  lemma ServerTextPlanned(dirty: set<Path>, form: Form, v8: bool, source: Doc, field: Path) returns (k: nat)
    requires field in SERVER_TEXTS
    ensures k < PARTS && Guarded(field in dirty, Set(field, Str(form.text(field)))) in Part(k, dirty, form, v8, source)
  {
    var g := Guarded(field in dirty, Set(field, Str(form.text(field))));
    if field == [HOST] {
      k := 0;
      assert ServerPart(dirty, form)[0] == g;
    } else if field == [TLS, CERT] {
      k := 0;
      assert ServerPart(dirty, form)[4] == g;
    } else if field == [TLS, KEY] {
      k := 0;
      assert ServerPart(dirty, form)[5] == g;
    } else if field == [REMOTE_MANAGEMENT, PANEL_GITHUB_REPOSITORY] {
      k := 1;
      assert ManagementPart(dirty, form)[5] == g;
    } else if field == [AUTH_DIR] {
      k := 2;
      assert KeysPart(dirty, form, v8, source)[0] == g;
    } else {
      k := 3;
      assert LogsPart(dirty, form)[3] == g;
    }
  }

  lemma RequestTextPlanned(dirty: set<Path>, form: Form, v8: bool, source: Doc, field: Path) returns (k: nat)
    requires field in REQUEST_TEXTS
    ensures k < PARTS && Guarded(field in dirty, Set(field, Str(form.text(field)))) in Part(k, dirty, form, v8, source)
  {
    var g := Guarded(field in dirty, Set(field, Str(form.text(field))));
    if field == [PROXY_URL] {
      k := 6;
      assert RequestsPart(dirty, form)[0] == g;
    } else if field == [GPT_IMAGE_2_BASE_MODEL] {
      k := 8;
      assert MediaPart(dirty, form)[1] == g;
    } else if field == [VIDEO_RESULT_AUTH_CACHE_TTL] {
      k := 8;
      assert MediaPart(dirty, form)[2] == g;
    } else if field == [CODEX_HEADER_DEFAULTS, USER_AGENT] {
      k := 11;
      assert CodexPart(dirty, form)[1] == g;
    } else if field == [CODEX_HEADER_DEFAULTS, BETA_FEATURES] {
      k := 11;
      assert CodexPart(dirty, form)[2] == g;
    } else {
      k := 21;
      assert RoutingPart(dirty, form)[3] == g;
    }
  }

  lemma ClaudeTextPlanned(dirty: set<Path>, form: Form, v8: bool, source: Doc, field: Path) returns (k: nat)
    requires field in CLAUDE_TEXTS
    ensures k < PARTS && Guarded(field in dirty, Set(field, Str(form.text(field)))) in Part(k, dirty, form, v8, source)
  {
    var g := Guarded(field in dirty, Set(field, Str(form.text(field))));
    if field == [CLAUDE_HEADER_DEFAULTS, USER_AGENT] {
      k := 10;
      assert ClaudePart(dirty, form)[1] == g;
    } else if field == [CLAUDE_HEADER_DEFAULTS, PACKAGE_VERSION] {
      k := 10;
      assert ClaudePart(dirty, form)[2] == g;
    } else if field == [CLAUDE_HEADER_DEFAULTS, RUNTIME_VERSION] {
      k := 10;
      assert ClaudePart(dirty, form)[3] == g;
    } else if field == [CLAUDE_HEADER_DEFAULTS, OS] {
      k := 10;
      assert ClaudePart(dirty, form)[4] == g;
    } else if field == [CLAUDE_HEADER_DEFAULTS, ARCH] {
      k := 10;
      assert ClaudePart(dirty, form)[5] == g;
    } else {
      k := 10;
      assert ClaudePart(dirty, form)[6] == g;
    }
  }

  lemma TextPlanned(dirty: set<Path>, form: Form, v8: bool, source: Doc, field: Path) returns (k: nat)
    requires field in TEXTS
    ensures k < PARTS && Guarded(field in dirty, Set(field, Str(form.text(field)))) in Part(k, dirty, form, v8, source)
  {
    hide Part;
    if field in SERVER_TEXTS {
      k := ServerTextPlanned(dirty, form, v8, source, field);
    } else if field in REQUEST_TEXTS {
      k := RequestTextPlanned(dirty, form, v8, source, field);
    } else {
      k := ClaudeTextPlanned(dirty, form, v8, source, field);
    }
  }

  lemma ServerNumberPlanned(dirty: set<Path>, form: Form, v8: bool, source: Doc, field: Path) returns (k: nat)
    requires field in SERVER_NUMBERS
    ensures k < PARTS && Guarded(field in dirty, Set(field, Whole(form.text(field)))) in Part(k, dirty, form, v8, source)
  {
    var g := Guarded(field in dirty, Set(field, Whole(form.text(field))));
    if field == [PORT] {
      k := 0;
      assert ServerPart(dirty, form)[1] == g;
    } else if field == [LOGS_MAX_TOTAL_SIZE_MB] {
      k := 4;
      assert UsagePart(dirty, form)[3] == g;
    } else if field == [ERROR_LOGS_MAX_FILES] {
      k := 4;
      assert UsagePart(dirty, form)[4] == g;
    } else if field == [REDIS_USAGE_QUEUE_RETENTION_SECONDS] {
      k := 4;
      assert UsagePart(dirty, form)[5] == g;
    } else if field == [REQUEST_RETRY] {
      k := 6;
      assert RequestsPart(dirty, form)[3] == g;
    } else {
      k := 6;
      assert RequestsPart(dirty, form)[4] == g;
    }
  }

  lemma RequestNumberPlanned(dirty: set<Path>, form: Form, v8: bool, source: Doc, field: Path) returns (k: nat)
    requires field in REQUEST_NUMBERS
    ensures k < PARTS && Guarded(field in dirty, Set(field, Whole(form.text(field)))) in Part(k, dirty, form, v8, source)
  {
    var g := Guarded(field in dirty, Set(field, Whole(form.text(field))));
    if field == [MAX_RETRY_INTERVAL] {
      k := 7;
      assert RetryPart(dirty, form)[0] == g;
    } else if field == [TRANSIENT_ERROR_COOLDOWN_SECONDS] {
      k := 7;
      assert RetryPart(dirty, form)[3] == g;
    } else if field == [AUTH_AUTO_REFRESH_WORKERS] {
      k := 8;
      assert MediaPart(dirty, form)[3] == g;
    } else if field == [STREAMING, KEEPALIVE_SECONDS] {
      k := 22;
      assert StreamingPart(dirty, form)[1] == g;
    } else if field == [STREAMING, BOOTSTRAP_RETRIES] {
      k := 22;
      assert StreamingPart(dirty, form)[2] == g;
    } else {
      k := 22;
      assert StreamingPart(dirty, form)[4] == g;
    }
  }

  lemma TicketNumberPlanned(dirty: set<Path>, form: Form, v8: bool, source: Doc, field: Path) returns (k: nat)
    requires field in TICKET_NUMBERS
    ensures k < PARTS && Guarded(field in dirty, Set(field, Whole(form.text(field)))) in Part(k, dirty, form, v8, source)
  {
    var g := Guarded(field in dirty, Set(field, Whole(form.text(field))));
    if field == [CODEX, TURN_STATE_TICKET, TTL_SECONDS] {
      k := 15;
      assert TimingPart(dirty, form, TTL_SECONDS)[1] == g;
    } else if field == [CODEX, TURN_STATE_TICKET, REFRESH_BEFORE_SECONDS] {
      k := 16;
      assert TimingPart(dirty, form, REFRESH_BEFORE_SECONDS)[1] == g;
    } else if field == [CODEX, TURN_STATE_TICKET, PROBE_INTERVAL_SECONDS] {
      k := 17;
      assert TimingPart(dirty, form, PROBE_INTERVAL_SECONDS)[1] == g;
    } else {
      k := 18;
      assert TimingPart(dirty, form, ATTEMPT_TIMEOUT_SECONDS)[1] == g;
    }
  }

  lemma NumberPlanned(dirty: set<Path>, form: Form, v8: bool, source: Doc, field: Path) returns (k: nat)
    requires field in NUMBERS
    ensures k < PARTS && Guarded(field in dirty, Set(field, Whole(form.text(field)))) in Part(k, dirty, form, v8, source)
  {
    hide Part;
    if field in SERVER_NUMBERS {
      k := ServerNumberPlanned(dirty, form, v8, source, field);
    } else if field in REQUEST_NUMBERS {
      k := RequestNumberPlanned(dirty, form, v8, source, field);
    } else {
      k := TicketNumberPlanned(dirty, form, v8, source, field);
    }
  }

  lemma RulesPlanned(dirty: set<Path>, form: Form, v8: bool, source: Doc, field: Path) returns (k: nat)
    requires field in RULES
    ensures k < PARTS
    ensures Guarded(field in dirty, Set(field, if form.nodes(field).Some? then Value(form.nodes(field).value) else Discard))
      in Part(k, dirty, form, v8, source)
  {
    var g := Guarded(field in dirty, Set(field, if form.nodes(field).Some? then Value(form.nodes(field).value) else Discard));
    if field == [PLUGINS, STORE_AUTH] {
      k := 5;
      assert PluginsPart(dirty, form)[4] == g;
    } else if field == [PAYLOAD, DEFAULT] {
      k := 23;
      assert PayloadPart(dirty, form)[1] == g;
    } else if field == [PAYLOAD, DEFAULT_RAW] {
      k := 23;
      assert PayloadPart(dirty, form)[2] == g;
    } else if field == [PAYLOAD, OVERRIDE] {
      k := 23;
      assert PayloadPart(dirty, form)[3] == g;
    } else if field == [PAYLOAD, OVERRIDE_RAW] {
      k := 23;
      assert PayloadPart(dirty, form)[4] == g;
    } else {
      k := 23;
      assert PayloadPart(dirty, form)[5] == g;
    }
  }

  // ----- What is read back -----

  ghost predicate Saved(dirty: set<Path>, form: Form, source: Doc, docs: seq<Doc>) {
    Run(IsV8Layout(source), source, SaveSteps(dirty, form, source), docs)
  }

  /** What a field that the save plans reads afterwards, under its own name. */
  lemma PlannedReads(dirty: set<Path>, form: Form, source: Doc, docs: seq<Doc>, k: nat, g: Guarded)
    requires Saved(dirty, form, source, docs) && k < PARTS && g in Part(k, dirty, form, IsV8Layout(source), source) && g.step.Set?
    ensures var after := Read(docs[|docs| - 1], g.step.path, []);
      && (!g.on ==> after == Read(source, g.step.path, []))
      && (g.on && g.step.edit.Value? ==> after == Some(g.step.edit.value))
      && (g.on && (g.step.edit.Discard? || g.step.edit.Remove?) ==> after == None)
  {
    hide Part, SaveSteps, IsV8Layout, HasField, NamesAfter, FormPath, Read, FirstFound, Locations, EditOf, Run;
    SavedEdit(dirty, form, source, k, g);
    FormAfterSave(dirty, form, source, docs, g.step.path, []);
    NoNamesAfter(source, SaveSteps(dirty, form, source));
    NoNames(source, g.step.path);
  }

  /** A flag reads as it was set. */
  lemma FlagReadsBack(dirty: set<Path>, form: Form, source: Doc, docs: seq<Doc>, field: Path)
    requires Saved(dirty, form, source, docs) && field in FLAGS
    ensures Read(docs[|docs| - 1], field, []) == if field in dirty then Some(Leaf(Bool(form.flag(field)))) else Read(source, field, [])
  {
    hide Part, SaveSteps, IsV8Layout, Read, Saved;
    var k := FlagPlanned(dirty, form, IsV8Layout(source), source, field);
    PlannedReads(dirty, form, source, docs, k, Guarded(field in dirty, Set(field, Value(Leaf(Bool(form.flag(field)))))));
  }

  /** Rules read as the serializers made them, and are gone when there are none. */
  lemma RulesReadBack(dirty: set<Path>, form: Form, source: Doc, docs: seq<Doc>, field: Path)
    requires Saved(dirty, form, source, docs) && field in RULES
    ensures Read(docs[|docs| - 1], field, []) == if field in dirty then form.nodes(field) else Read(source, field, [])
  {
    hide Part, SaveSteps, IsV8Layout, Read, Saved;
    var k := RulesPlanned(dirty, form, IsV8Layout(source), source, field);
    PlannedReads(dirty, form, source, docs, k,
      Guarded(field in dirty, Set(field, if form.nodes(field).Some? then Value(form.nodes(field).value) else Discard)));
  }

  /** The lists of lines: the first two are deleted when they are empty, the models are not. */
  lemma ListsReadBack(dirty: set<Path>, form: Form, source: Doc, docs: seq<Doc>, field: Path)
    requires Saved(dirty, form, source, docs) && field in dirty
    requires field in {[PLUGINS, STORE_SOURCES], [DEVIN, SENSITIVE_WORDS], [CODEX, TURN_STATE_TICKET, MODELS]}
    ensures Read(docs[|docs| - 1], field, [])
      == if form.list(field) == [] && field[0] != CODEX then None else Some(Leaf(List(form.list(field))))
  {
    hide SaveSteps, IsV8Layout, Read, Saved;
    if field[0] == PLUGINS {
      PlannedReads(dirty, form, source, docs, 5, PluginsPart(dirty, form)[3]);
    } else if field[0] == DEVIN {
      PlannedReads(dirty, form, source, docs, 19, DevinPart(dirty, form)[1]);
    } else {
      PlannedReads(dirty, form, source, docs, 14, TicketTextsPart(dirty, form)[3]);
    }
  }

  /** The two choices read as they were made. */
  lemma ChoicesReadBack(dirty: set<Path>, form: Form, source: Doc, docs: seq<Doc>, field: Path)
    requires Saved(dirty, form, source, docs) && field in {[CODEX_HEADER_DEFAULTS, FAST_MODE], [ROUTING, STRATEGY]}
    ensures Read(docs[|docs| - 1], field, []) == if field in dirty then Some(Leaf(Text(form.text(field)))) else Read(source, field, [])
  {
    hide SaveSteps, IsV8Layout, Read, Saved, Trim;
    if field == [ROUTING, STRATEGY] {
      PlannedReads(dirty, form, source, docs, 21, RoutingPart(dirty, form)[1]);
    } else {
      PlannedReads(dirty, form, source, docs, 11, CodexPart(dirty, form)[3]);
    }
  }

  /** The proxy of the tickets reads trimmed; the directory of the plugins reads as typed, and is deleted when it is blank. */
  lemma ProxyAndDirReadBack(dirty: set<Path>, form: Form, source: Doc, docs: seq<Doc>)
    requires Saved(dirty, form, source, docs)
    ensures var proxy := [CODEX, TURN_STATE_TICKET, HARVEST_PROXY_URL];
      proxy in dirty ==> Read(docs[|docs| - 1], proxy, []) == Some(Leaf(Text(Trim(form.text(proxy)))))
    ensures var dir := [PLUGINS, DIR];
      dir in dirty ==> Read(docs[|docs| - 1], dir, []) == if Trim(form.text(dir)) == "" then None else Some(Leaf(Text(form.text(dir))))
  {
    hide SaveSteps, IsV8Layout, Read, Saved, Trim;
    PlannedReads(dirty, form, source, docs, 14, TicketTextsPart(dirty, form)[1]);
    PlannedReads(dirty, form, source, docs, 5, PluginsPart(dirty, form)[2]);
  }

  /**
    The secret key is cleared when that was chosen, replaced when that was chosen
    and a key is given, and stays as it was otherwise.
   */
  lemma SecretKeyReadsBack(dirty: set<Path>, form: Form, source: Doc, docs: seq<Doc>)
    requires Saved(dirty, form, source, docs)
    ensures var field := [REMOTE_MANAGEMENT, SECRET_KEY];
      Read(docs[|docs| - 1], field, []) ==
        if field in dirty && form.clearsSecret then Some(Leaf(Text("")))
        else if field in dirty && form.replacesSecret && form.text(field) != "" then Some(Leaf(Text(form.text(field))))
        else Read(source, field, [])
  {
    hide SaveSteps, IsV8Layout, Read, Saved;
    PlannedReads(dirty, form, source, docs, 1, ManagementPart(dirty, form)[2]);
  }

  /** Name and platform read as edited, the name trimmed; any edit of the notifications also writes them where the document lacks them. */
  lemma NotificationNamesReadBack(dirty: set<Path>, form: Form, source: Doc, docs: seq<Doc>, edited: Path)
    requires Saved(dirty, form, source, docs)
    requires edited in dirty * {NOTIFICATION_NAME, NOTIFICATION_PLATFORM, NOTIFICATION_WEBHOOK, NOTIFICATION_SECRET}
    ensures var name, platform := NOTIFICATION_NAME, NOTIFICATION_PLATFORM;
      && (edited == name || !Truthy(Get(source, name)) ==> Read(docs[|docs| - 1], name, []) == Some(Leaf(Text(Trim(form.text(name))))))
      && (edited == platform || !Truthy(Get(source, platform)) ==> Read(docs[|docs| - 1], platform, []) == Some(Leaf(Text(form.text(platform)))))
  {
    hide SaveSteps, IsV8Layout, Read, Saved, Trim, HasField, Get, Truthy;
    var part := NotificationsPart(dirty, form, IsV8Layout(source), source);
    assert NOTIFICATIONS < edited;
    PlannedReads(dirty, form, source, docs, 12, part[1]);
    PlannedReads(dirty, form, source, docs, 12, part[2]);
  }

  /**
    The webhook reads as edited, trimmed, and so does the secret; the platform
    that has no secret leaves none, neither an edited one nor one that was there.
   */
  lemma NotificationSecretsReadBack(dirty: set<Path>, form: Form, source: Doc, docs: seq<Doc>)
    requires Saved(dirty, form, source, docs)
    ensures var webhook, secret, without := NOTIFICATION_WEBHOOK, NOTIFICATION_SECRET, form.text(NOTIFICATION_PLATFORM) == "wecom";
      && (webhook in dirty ==> Read(docs[|docs| - 1], webhook, []) == Some(Leaf(Text(Trim(form.text(webhook))))))
      && (secret in dirty ==> Read(docs[|docs| - 1], secret, []) == Some(Leaf(Text(if without then "" else Trim(form.text(secret))))))
      && (NOTIFICATION_PLATFORM in dirty && without && HasField(IsV8Layout(source), source, source, secret)
          ==> Read(docs[|docs| - 1], secret, []) == Some(Leaf(Text(""))))
  {
    hide SaveSteps, IsV8Layout, Read, Saved, Trim, HasField, Get, Truthy;
    var part := NotificationsPart(dirty, form, IsV8Layout(source), source);
    PlannedReads(dirty, form, source, docs, 12, part[3]);
    PlannedReads(dirty, form, source, docs, 12, part[4]);
  }

  /** The mode of image generation: chat and passthrough as texts, true as on, anything else as off, which may stay unwritten. */
  lemma ImageModeReadsBack(dirty: set<Path>, form: Form, source: Doc, docs: seq<Doc>)
    requires Saved(dirty, form, source, docs) && [DISABLE_IMAGE_GENERATION] in dirty
    ensures var mode, after := form.text([DISABLE_IMAGE_GENERATION]), Read(docs[|docs| - 1], [DISABLE_IMAGE_GENERATION], []);
      if mode == "chat" || mode == "passthrough" then after == Some(Leaf(Text(mode)))
      else if mode == "true" then after == Some(Leaf(Bool(true)))
      else after == Some(Leaf(Bool(false))) || after == None
  {
    hide SaveSteps, IsV8Layout, Read, Run;
    SavedMode(dirty, form, source, docs);
  }

  /**
    The client keys are read where the layout has them: under access in the V8
    layout, when they are there already, or when the old place holds the keys of
    upstreams, which stay; at the old place otherwise, and gone from there when
    they moved or there are none.
   */
  lemma ClientKeysReadBack(dirty: set<Path>, form: Form, source: Doc, docs: seq<Doc>)
    requires Saved(dirty, form, source, docs) && [API_KEYS] in dirty
    ensures var after, keys := docs[|docs| - 1], form.list([API_KEYS]);
      if IsMap(source, [API_KEYS]) then
        && Read(after, [ACCESS, API_KEYS], []) == Some(Leaf(List(keys)))
        && Read(after, [API_KEYS], []) == Read(source, [API_KEYS], [])
      else if IsV8Layout(source) || HasField(IsV8Layout(source), source, source, [ACCESS, API_KEYS]) then
        Read(after, [ACCESS, API_KEYS], []) == Some(Leaf(List(keys))) && Read(after, [API_KEYS], []) == None
      else
        && Read(after, [API_KEYS], []) == (if keys == [] then None else Some(Leaf(List(keys))))
        && Read(after, [ACCESS, API_KEYS], []) == Read(source, [ACCESS, API_KEYS], [])
  {
    hide SaveSteps, IsV8Layout, Read, Saved, HasField, IsMap;
    var part := KeysPart(dirty, form, IsV8Layout(source), source);
    PlannedReads(dirty, form, source, docs, 2, part[2]);
    PlannedReads(dirty, form, source, docs, 2, part[3]);
  }

  // ----- Switches, texts and numbers -----

  /** A switch shows as it was set, unless it was turned off where it was nowhere and another name still says on. */
  lemma SwitchShows(dirty: set<Path>, form: Form, source: Doc, docs: seq<Doc>, field: Path, names: seq<Path>)
    requires Saved(dirty, form, source, docs) && field in SWITCHES && field in dirty && forall a | a in names :: FormField(a)
    ensures Truthy(Read(docs[|docs| - 1], field, names)) == form.flag(field)
      <==> form.flag(field) || Moved(IsV8Layout(source), field) || HasField(IsV8Layout(source), source, source, field)
           || !Truthy(NamesAfter(IsV8Layout(source), source, SaveSteps(dirty, form, source), names))
  {
    hide Part, SaveSteps, IsV8Layout, Read, Run, HasField, Moved, NamesAfter, FormField;
    var k := SwitchPlanned(dirty, form, IsV8Layout(source), source, field);
    SavedSwitch(dirty, form, source, docs, k, field, names);
  }

  /** A text shows as typed, unless it is blank and not empty, or the field was nowhere and another name or the fallback says otherwise. */
  lemma TextShows(dirty: set<Path>, form: Form, source: Doc, docs: seq<Doc>, field: Path, names: seq<Path>, fallback: string)
    requires Saved(dirty, form, source, docs) && field in TEXTS && field in dirty && forall a | a in names :: FormField(a)
    ensures FormText(Read(docs[|docs| - 1], field, names), fallback) == form.text(field)
      <==> if Trim(form.text(field)) != "" then true
           else if HasField(IsV8Layout(source), source, source, field) then form.text(field) == "" || Moved(IsV8Layout(source), field)
           else FormText(NamesAfter(IsV8Layout(source), source, SaveSteps(dirty, form, source), names), fallback) == form.text(field)
  {
    hide Part, SaveSteps, IsV8Layout, Read, Run, HasField, Moved, NamesAfter, FormField, Trim;
    var k := TextPlanned(dirty, form, IsV8Layout(source), source, field);
    SavedText(dirty, form, source, docs, k, field, names, fallback);
  }

  /**
    A number shows as typed when it is a plain numeral, and, where numbers that
    are not positive show the fallback, positive or the fallback itself; a blank
    deletes it, and what is no number leaves it as it was.
   */
  lemma NumberShows(dirty: set<Path>, form: Form, source: Doc, docs: seq<Doc>, field: Path, names: seq<Path>,
                    fallback: string, positive: bool, other: Doc -> string)
    requires Saved(dirty, form, source, docs) && field in NUMBERS && field in dirty && forall a | a in names :: FormField(a)
    ensures var s := form.text(field);
      var rest := NamesAfter(IsV8Layout(source), source, SaveSteps(dirty, form, source), names);
      var own := Read(source, field, []);
      FormNumber(Read(docs[|docs| - 1], field, names), fallback, positive, other) == s
      <==> if Trim(s) == "" then FormNumber(rest, fallback, positive, other) == s
           else if Numeral(Trim(s)) then
             if positive && Integer(Trim(s)) <= 0 then s == fallback else Numeral(s) && PlainNumeral(s)
           else FormNumber(if own.Some? then own else rest, fallback, positive, other) == s
  {
    hide Part, SaveSteps, IsV8Layout, Read, Run, NamesAfter, FormField, Trim, Numeral, Integer, PlainNumeral, FirstFound, Locations;
    var k := NumberPlanned(dirty, form, IsV8Layout(source), source, field);
    SavedNumber(dirty, form, source, docs, k, field, names, fallback, positive, other);
    NoNames(source, field);
  }

  /** A switch, text or number that was not edited reads as before. */
  lemma UneditedReadsAsBefore(dirty: set<Path>, form: Form, source: Doc, docs: seq<Doc>, field: Path)
    requires Saved(dirty, form, source, docs) && field in SWITCHES + TEXTS + NUMBERS && field !in dirty
    ensures Read(docs[|docs| - 1], field, []) == Read(source, field, [])
  {
    hide Part, SaveSteps, IsV8Layout, Read, Saved;
    var v8 := IsV8Layout(source);
    if field in SWITCHES {
      var k := SwitchPlanned(dirty, form, v8, source, field);
      PlannedReads(dirty, form, source, docs, k, SwitchField(dirty, form, field));
    } else if field in TEXTS {
      var k := TextPlanned(dirty, form, v8, source, field);
      PlannedReads(dirty, form, source, docs, k, TextField(dirty, form, field));
    } else {
      var k := NumberPlanned(dirty, form, v8, source, field);
      PlannedReads(dirty, form, source, docs, k, NumberField(dirty, form, field));
    }
  }
}
