/**
  The save of the form: which writes it makes, in order, for the fields that
  are dirty. Whatever is dirty, the writes are such that the lens theorem
  applies, so every field of the form reads afterwards as it was edited.
 */
module ConfigForm {
  import opened YamlTree
  import opened ConfigPaths
  import opened ConfigSave
  import opened ConfigLens

  /**
    A field of the form is named by its legacy path. Its value is a switch, a
    text, a list of lines, or what the serializers make of rules; the secret key
    of remote management has an action besides.
   */
  datatype Form = Form(
    flag: Path -> bool, text: Path -> string, list: Path -> seq<string>, nodes: Path -> Option<Doc>, clearsSecret: bool, replacesSecret: bool)

  /** A write and whether it is made. */
  datatype Guarded = Guarded(on: bool, step: Step)

  function Made(plan: seq<Guarded>): seq<Step> {
    if |plan| == 0 then []
    else
      var n := |plan| - 1;
      if plan[n].on then Made(plan[..n]) + [plan[n].step] else Made(plan[..n])
  }

  // ----- Kinds of writes -----

  function TextField(dirty: set<Path>, form: Form, path: Path): Guarded {
    Guarded(path in dirty, Set(path, Str(form.text(path))))
  }

  function SwitchField(dirty: set<Path>, form: Form, path: Path): Guarded {
    Guarded(path in dirty, Set(path, Boolean(form.flag(path))))
  }

  function NumberField(dirty: set<Path>, form: Form, path: Path): Guarded {
    Guarded(path in dirty, Set(path, Whole(form.text(path))))
  }

  function FlagValue(dirty: set<Path>, form: Form, path: Path): Guarded {
    Guarded(path in dirty, Set(path, Value(Leaf(Bool(form.flag(path))))))
  }

  function TextValue(on: bool, text: string, path: Path): Guarded {
    Guarded(on, Set(path, Value(Leaf(Text(text)))))
  }

  /** Rules: written when there are any, deleted otherwise. */
  function NodesField(dirty: set<Path>, form: Form, path: Path): Guarded {
    Guarded(path in dirty, Set(path, if form.nodes(path).Some? then Value(form.nodes(path).value) else Discard))
  }

  function ListField(dirty: set<Path>, form: Form, path: Path): Guarded {
    Guarded(path in dirty, Set(path, ListEdit(form, path)))
  }

  function ListEdit(form: Form, path: Path): Edit {
    if form.list(path) != [] then Value(Leaf(List(form.list(path)))) else Discard
  }

  /** Some field right below the group is dirty. */
  predicate DirtyIn(dirty: set<Path>, group: Path) {
    exists p | p in dirty :: group < p
  }

  // ----- The plan, in the order of the save. Its tests of what is there look at the document read: no write before them touches those fields. -----

  function ServerPart(dirty: set<Path>, form: Form): seq<Guarded> {
    [
      TextField(dirty, form, [HOST]),
      NumberField(dirty, form, [PORT]),
      Guarded(DirtyIn(dirty, [TLS]), Make([TLS])),
      SwitchField(dirty, form, [TLS, ENABLE]),
      TextField(dirty, form, [TLS, CERT]),
      TextField(dirty, form, [TLS, KEY]),
      Guarded(DirtyIn(dirty, [TLS]), Clear([TLS]))
    ]
  }

  const SECRET_KEY_FIELD: Path := [REMOTE_MANAGEMENT, SECRET_KEY]
  const PANEL_FIELD: Path := [REMOTE_MANAGEMENT, PANEL_GITHUB_REPOSITORY]
  const PANEL_ALIAS: Path := [REMOTE_MANAGEMENT, PANEL_REPO]

  /** The secret key is written when it is replaced by a text or cleared; the old name of the panel repository is deleted. */
  function ManagementPart(dirty: set<Path>, form: Form): seq<Guarded> {
    var secret := form.text(SECRET_KEY_FIELD);
    var update := SECRET_KEY_FIELD in dirty && (form.clearsSecret || (form.replacesSecret && |secret| > 0));
    [
      Guarded(DirtyIn(dirty, [REMOTE_MANAGEMENT]), Make([REMOTE_MANAGEMENT])),
      SwitchField(dirty, form, [REMOTE_MANAGEMENT, ALLOW_REMOTE]),
      TextValue(update, if form.clearsSecret then "" else secret, SECRET_KEY_FIELD),
      SwitchField(dirty, form, [REMOTE_MANAGEMENT, DISABLE_CONTROL_PANEL]),
      SwitchField(dirty, form, [REMOTE_MANAGEMENT, DISABLE_AUTO_UPDATE_PANEL]),
      TextField(dirty, form, PANEL_FIELD),
      Guarded(PANEL_FIELD in dirty, Set(PANEL_ALIAS, Discard)),
      Guarded(DirtyIn(dirty, [REMOTE_MANAGEMENT]), Clear([REMOTE_MANAGEMENT]))
    ]
  }

  /**
    Client keys, a field named [API_KEYS]: written under access in the V8
    layout, since the root mapping may hold the keys of upstreams there.
   */
  function KeysPart(dirty: set<Path>, form: Form, v8: bool, source: Doc): seq<Guarded> {
    var keys, upstream := [API_KEYS] in dirty, IsMap(source, [API_KEYS]);
    var toAccess := v8 || HasField(v8, source, source, [ACCESS, API_KEYS]) || upstream;
    [
      TextField(dirty, form, [AUTH_DIR]),
      Guarded(keys && toAccess, Make([ACCESS])),
      Guarded(keys && toAccess, Set([ACCESS, API_KEYS], Value(Leaf(List(form.list([API_KEYS])))))),
      Guarded(keys && !(toAccess && upstream), Set([API_KEYS], if toAccess then Remove else ListEdit(form, [API_KEYS]))),
      Guarded(keys, Tidy)
    ]
  }

  function LogsPart(dirty: set<Path>, form: Form): seq<Guarded> {
    [
      SwitchField(dirty, form, [DEBUG]),
      Guarded(DirtyIn(dirty, [PPROF]), Make([PPROF])),
      FlagValue(dirty, form, [PPROF, ENABLE]),
      TextField(dirty, form, [PPROF, ADDR]),
      Guarded(DirtyIn(dirty, [PPROF]), Clear([PPROF])),
      SwitchField(dirty, form, [COMMERCIAL_MODE])
    ]
  }

  function UsagePart(dirty: set<Path>, form: Form): seq<Guarded> {
    [
      SwitchField(dirty, form, [USAGE_STATISTICS_ENABLED]),
      SwitchField(dirty, form, [LOGGING_TO_FILE]),
      SwitchField(dirty, form, [REQUEST_LOG]),
      NumberField(dirty, form, [LOGS_MAX_TOTAL_SIZE_MB]),
      NumberField(dirty, form, [ERROR_LOGS_MAX_FILES]),
      NumberField(dirty, form, [REDIS_USAGE_QUEUE_RETENTION_SECONDS])
    ]
  }

  function PluginsPart(dirty: set<Path>, form: Form): seq<Guarded> {
    var dir := form.text([PLUGINS, DIR]);
    [
      Guarded(DirtyIn(dirty, [PLUGINS]), Make([PLUGINS])),
      FlagValue(dirty, form, [PLUGINS, ENABLED]),
      Guarded([PLUGINS, DIR] in dirty, Set([PLUGINS, DIR], if Trim(dir) != "" then Value(Leaf(Text(dir))) else Discard)),
      ListField(dirty, form, [PLUGINS, STORE_SOURCES]),
      NodesField(dirty, form, [PLUGINS, STORE_AUTH]),
      Guarded(DirtyIn(dirty, [PLUGINS]), Clear([PLUGINS]))
    ]
  }

  function RequestsPart(dirty: set<Path>, form: Form): seq<Guarded> {
    [
      TextField(dirty, form, [PROXY_URL]),
      SwitchField(dirty, form, [FORCE_MODEL_PREFIX]),
      SwitchField(dirty, form, [PASSTHROUGH_HEADERS]),
      NumberField(dirty, form, [REQUEST_RETRY]),
      NumberField(dirty, form, [MAX_RETRY_CREDENTIALS])
    ]
  }

  function RetryPart(dirty: set<Path>, form: Form): seq<Guarded> {
    [
      NumberField(dirty, form, [MAX_RETRY_INTERVAL]),
      SwitchField(dirty, form, [DISABLE_COOLING]),
      SwitchField(dirty, form, [SAVE_COOLDOWN_STATUS]),
      NumberField(dirty, form, [TRANSIENT_ERROR_COOLDOWN_SECONDS]),
      SwitchField(dirty, form, [DISABLE_CLAUDE_CLOAK_MODE])
    ]
  }

  /** The switch that may also be a text: chat and passthrough. */
  function ImageMode(text: string): Scalar {
    if text == "chat" || text == "passthrough" then Text(text) else Bool(text == "true")
  }

  function MediaPart(dirty: set<Path>, form: Form): seq<Guarded> {
    [
      Guarded([DISABLE_IMAGE_GENERATION] in dirty, Set([DISABLE_IMAGE_GENERATION], Mode(ImageMode(form.text([DISABLE_IMAGE_GENERATION]))))),
      TextField(dirty, form, [GPT_IMAGE_2_BASE_MODEL]),
      TextField(dirty, form, [VIDEO_RESULT_AUTH_CACHE_TTL]),
      NumberField(dirty, form, [AUTH_AUTO_REFRESH_WORKERS]),
      FlagValue(dirty, form, [WS_AUTH])
    ]
  }

  function ProvidersPart(dirty: set<Path>, form: Form): seq<Guarded> {
    [
      FlagValue(dirty, form, [CODEX, FORCE_WEBSOCKET]),
      FlagValue(dirty, form, [CODEX, BASISPOINTS, ENABLED]),
      FlagValue(dirty, form, [ANTIGRAVITY_SIGNATURE_CACHE_ENABLED]),
      SwitchField(dirty, form, [ANTIGRAVITY_SIGNATURE_BYPASS_STRICT])
    ]
  }

  function ClaudePart(dirty: set<Path>, form: Form): seq<Guarded> {
    [
      Guarded(DirtyIn(dirty, [CLAUDE_HEADER_DEFAULTS]), Make([CLAUDE_HEADER_DEFAULTS])),
      TextField(dirty, form, [CLAUDE_HEADER_DEFAULTS, USER_AGENT]),
      TextField(dirty, form, [CLAUDE_HEADER_DEFAULTS, PACKAGE_VERSION]),
      TextField(dirty, form, [CLAUDE_HEADER_DEFAULTS, RUNTIME_VERSION]),
      TextField(dirty, form, [CLAUDE_HEADER_DEFAULTS, OS]),
      TextField(dirty, form, [CLAUDE_HEADER_DEFAULTS, ARCH]),
      TextField(dirty, form, [CLAUDE_HEADER_DEFAULTS, TIMEOUT]),
      SwitchField(dirty, form, [CLAUDE_HEADER_DEFAULTS, STABILIZE_DEVICE_PROFILE]),
      Guarded(DirtyIn(dirty, [CLAUDE_HEADER_DEFAULTS]), Clear([CLAUDE_HEADER_DEFAULTS]))
    ]
  }

  function CodexPart(dirty: set<Path>, form: Form): seq<Guarded> {
    [
      Guarded(DirtyIn(dirty, [CODEX_HEADER_DEFAULTS]), Make([CODEX_HEADER_DEFAULTS])),
      TextField(dirty, form, [CODEX_HEADER_DEFAULTS, USER_AGENT]),
      TextField(dirty, form, [CODEX_HEADER_DEFAULTS, BETA_FEATURES]),
      TextValue([CODEX_HEADER_DEFAULTS, FAST_MODE] in dirty, form.text([CODEX_HEADER_DEFAULTS, FAST_MODE]), [CODEX_HEADER_DEFAULTS, FAST_MODE]),
      Guarded(DirtyIn(dirty, [CODEX_HEADER_DEFAULTS]), Clear([CODEX_HEADER_DEFAULTS])),
      Guarded([CODEX, DEVICE_CONVERGENCE] in dirty, Make([CODEX])),
      FlagValue(dirty, form, [CODEX, DEVICE_CONVERGENCE])
    ]
  }

  const NOTIFICATIONS: Path := [OBSERVABILITY, EVENT_NOTIFICATIONS]
  const NOTIFICATION_NAME: Path := [OBSERVABILITY, EVENT_NOTIFICATIONS, INSTANCE_NAME]
  const NOTIFICATION_PLATFORM: Path := [OBSERVABILITY, EVENT_NOTIFICATIONS, PLATFORM]
  const NOTIFICATION_WEBHOOK: Path := [OBSERVABILITY, EVENT_NOTIFICATIONS, WEBHOOK]
  const NOTIFICATION_SECRET: Path := [OBSERVABILITY, EVENT_NOTIFICATIONS, SECRET]

  /** Name and platform are also written when the document lacks them; a platform without secrets empties the secret. */
  function NotificationsPart(dirty: set<Path>, form: Form, v8: bool, source: Doc): seq<Guarded> {
    var any, wecom := DirtyIn(dirty, NOTIFICATIONS), form.text(NOTIFICATION_PLATFORM) == "wecom";
    [
      Guarded(any, Make(NOTIFICATIONS)),
      TextValue(any && (NOTIFICATION_NAME in dirty || !Truthy(Get(source, NOTIFICATION_NAME))), Trim(form.text(NOTIFICATION_NAME)), NOTIFICATION_NAME),
      TextValue(any && (NOTIFICATION_PLATFORM in dirty || !Truthy(Get(source, NOTIFICATION_PLATFORM))), form.text(NOTIFICATION_PLATFORM),
        NOTIFICATION_PLATFORM),
      TextValue(NOTIFICATION_WEBHOOK in dirty, Trim(form.text(NOTIFICATION_WEBHOOK)), NOTIFICATION_WEBHOOK),
      TextValue(
        NOTIFICATION_SECRET in dirty || (NOTIFICATION_PLATFORM in dirty && wecom && HasField(v8, source, source, NOTIFICATION_SECRET)),
        if wecom then "" else Trim(form.text(NOTIFICATION_SECRET)), NOTIFICATION_SECRET)
    ]
  }

  const TICKET: Path := [CODEX, TURN_STATE_TICKET]
  const TICKET_PROXY: Path := [CODEX, TURN_STATE_TICKET, HARVEST_PROXY_URL]
  const TICKET_MODELS: Path := [CODEX, TURN_STATE_TICKET, MODELS]

  function TicketsPart(dirty: set<Path>, form: Form): seq<Guarded> {
    [
      Guarded([CODEX, TURN_STATE_TICKET, ENABLED] in dirty, Make(TICKET)),
      FlagValue(dirty, form, [CODEX, TURN_STATE_TICKET, ENABLED]),
      Guarded([CODEX, TURN_STATE_TICKET, FAIL_CLOSED] in dirty, Make(TICKET)),
      FlagValue(dirty, form, [CODEX, TURN_STATE_TICKET, FAIL_CLOSED])
    ]
  }

  function TicketTextsPart(dirty: set<Path>, form: Form): seq<Guarded> {
    [
      Guarded(TICKET_PROXY in dirty, Make(TICKET)),
      TextValue(TICKET_PROXY in dirty, Trim(form.text(TICKET_PROXY)), TICKET_PROXY),
      Guarded(TICKET_MODELS in dirty, Make(TICKET)),
      Guarded(TICKET_MODELS in dirty, Set(TICKET_MODELS, Value(Leaf(List(form.list(TICKET_MODELS))))))
    ]
  }

  function TimingPart(dirty: set<Path>, form: Form, key: Key): seq<Guarded> {
    var field := [CODEX, TURN_STATE_TICKET, key];
    [
      Guarded(field in dirty, Make(TICKET)),
      NumberField(dirty, form, field),
      Guarded(field in dirty, Clear(TICKET)),
      Guarded(field in dirty, Clear([CODEX]))
    ]
  }

  const SENSITIVE_WORDS_FIELD: Path := [DEVIN, SENSITIVE_WORDS]

  function DevinPart(dirty: set<Path>, form: Form): seq<Guarded> {
    [
      Guarded(SENSITIVE_WORDS_FIELD in dirty && form.list(SENSITIVE_WORDS_FIELD) != [], Make([DEVIN])),
      ListField(dirty, form, SENSITIVE_WORDS_FIELD),
      Guarded(SENSITIVE_WORDS_FIELD in dirty, Clear([DEVIN]))
    ]
  }

  function QuotaPart(dirty: set<Path>, form: Form): seq<Guarded> {
    [
      Guarded(DirtyIn(dirty, [QUOTA_EXCEEDED]), Make([QUOTA_EXCEEDED])),
      FlagValue(dirty, form, [QUOTA_EXCEEDED, SWITCH_PROJECT]),
      FlagValue(dirty, form, [QUOTA_EXCEEDED, SWITCH_PREVIEW_MODEL]),
      FlagValue(dirty, form, [QUOTA_EXCEEDED, ANTIGRAVITY_CREDITS]),
      Guarded(DirtyIn(dirty, [QUOTA_EXCEEDED]), Clear([QUOTA_EXCEEDED]))
    ]
  }

  function RoutingPart(dirty: set<Path>, form: Form): seq<Guarded> {
    [
      Guarded(DirtyIn(dirty, [ROUTING]), Make([ROUTING])),
      TextValue([ROUTING, STRATEGY] in dirty, form.text([ROUTING, STRATEGY]), [ROUTING, STRATEGY]),
      SwitchField(dirty, form, [ROUTING, SESSION_AFFINITY]),
      TextField(dirty, form, [ROUTING, SESSION_AFFINITY_TTL]),
      Guarded(DirtyIn(dirty, [ROUTING]), Clear([ROUTING]))
    ]
  }

  function StreamingPart(dirty: set<Path>, form: Form): seq<Guarded> {
    [
      Guarded(DirtyIn(dirty, [STREAMING]), Make([STREAMING])),
      NumberField(dirty, form, [STREAMING, KEEPALIVE_SECONDS]),
      NumberField(dirty, form, [STREAMING, BOOTSTRAP_RETRIES]),
      Guarded(DirtyIn(dirty, [STREAMING]), Clear([STREAMING])),
      NumberField(dirty, form, [NONSTREAM_KEEPALIVE_INTERVAL])
    ]
  }

  function PayloadPart(dirty: set<Path>, form: Form): seq<Guarded> {
    [
      Guarded(DirtyIn(dirty, [PAYLOAD]), Make([PAYLOAD])),
      NodesField(dirty, form, [PAYLOAD, DEFAULT]),
      NodesField(dirty, form, [PAYLOAD, DEFAULT_RAW]),
      NodesField(dirty, form, [PAYLOAD, OVERRIDE]),
      NodesField(dirty, form, [PAYLOAD, OVERRIDE_RAW]),
      NodesField(dirty, form, [PAYLOAD, FILTER]),
      Guarded(DirtyIn(dirty, [PAYLOAD]), Clear([PAYLOAD]))
    ]
  }

  /** The parts of the save, in order. */
  function Part(k: nat, dirty: set<Path>, form: Form, v8: bool, source: Doc): seq<Guarded> {
    match k
    case 0 => ServerPart(dirty, form)
    case 1 => ManagementPart(dirty, form)
    case 2 => KeysPart(dirty, form, v8, source)
    case 3 => LogsPart(dirty, form)
    case 4 => UsagePart(dirty, form)
    case 5 => PluginsPart(dirty, form)
    case 6 => RequestsPart(dirty, form)
    case 7 => RetryPart(dirty, form)
    case 8 => MediaPart(dirty, form)
    case 9 => ProvidersPart(dirty, form)
    case 10 => ClaudePart(dirty, form)
    case 11 => CodexPart(dirty, form)
    case 12 => NotificationsPart(dirty, form, v8, source)
    case 13 => TicketsPart(dirty, form)
    case 14 => TicketTextsPart(dirty, form)
    case 15 => TimingPart(dirty, form, TTL_SECONDS)
    case 16 => TimingPart(dirty, form, REFRESH_BEFORE_SECONDS)
    case 17 => TimingPart(dirty, form, PROBE_INTERVAL_SECONDS)
    case 18 => TimingPart(dirty, form, ATTEMPT_TIMEOUT_SECONDS)
    case 19 => DevinPart(dirty, form)
    case 20 => QuotaPart(dirty, form)
    case 21 => RoutingPart(dirty, form)
    case 22 => StreamingPart(dirty, form)
    case 23 => PayloadPart(dirty, form)
    case _ => []
  }

  const PARTS: nat := 24

  function Plan(n: nat, dirty: set<Path>, form: Form, v8: bool, source: Doc): seq<Guarded> {
    if n == 0 then [] else Plan(n - 1, dirty, form, v8, source) + Part(n - 1, dirty, form, v8, source)
  }

  /** applyVisualChangesToYaml: the writes of the save. */
  function SaveSteps(dirty: set<Path>, form: Form, source: Doc): seq<Step> {
    Made(Plan(PARTS, dirty, form, IsV8Layout(source), source))
  }

  // ----- The paths of the form -----

  /** How long a path of the form is, by its first keys. */
  function Depth(p: Path): nat {
    if |p| == 0 then 1
    else if p[0] == CODEX then (if |p| > 1 && p[1] in {BASISPOINTS, TURN_STATE_TICKET} then 3 else 2)
    else if p[0] == OBSERVABILITY then 3
    else if p[0] in {TLS, REMOTE_MANAGEMENT, ACCESS, PPROF, PLUGINS, CLAUDE_HEADER_DEFAULTS, CODEX_HEADER_DEFAULTS, DEVIN,
                     QUOTA_EXCEEDED, ROUTING, STREAMING, PAYLOAD} then 2
    else if p[0] == AUTH then 4
    else 1
  }

  /** The part of the plan a path is written in. */
  function PartOf(p: Path): nat {
    if |p| == 0 then PARTS
    else if p[0] in {HOST, PORT, TLS} then 0
    else if p[0] == REMOTE_MANAGEMENT then 1
    else if p[0] in {AUTH_DIR, ACCESS, API_KEYS} then 2
    else if p[0] in {DEBUG, PPROF, COMMERCIAL_MODE} then 3
    else if p[0] in {USAGE_STATISTICS_ENABLED, LOGGING_TO_FILE, REQUEST_LOG, LOGS_MAX_TOTAL_SIZE_MB, ERROR_LOGS_MAX_FILES,
                     REDIS_USAGE_QUEUE_RETENTION_SECONDS} then 4
    else if p[0] == PLUGINS then 5
    else if p[0] in {PROXY_URL, FORCE_MODEL_PREFIX, PASSTHROUGH_HEADERS, REQUEST_RETRY, MAX_RETRY_CREDENTIALS} then 6
    else if p[0] in {MAX_RETRY_INTERVAL, DISABLE_COOLING, SAVE_COOLDOWN_STATUS, TRANSIENT_ERROR_COOLDOWN_SECONDS,
                     DISABLE_CLAUDE_CLOAK_MODE} then 7
    else if p[0] in {DISABLE_IMAGE_GENERATION, GPT_IMAGE_2_BASE_MODEL, VIDEO_RESULT_AUTH_CACHE_TTL, AUTH_AUTO_REFRESH_WORKERS, WS_AUTH} then 8
    else if p[0] in {ANTIGRAVITY_SIGNATURE_CACHE_ENABLED, ANTIGRAVITY_SIGNATURE_BYPASS_STRICT} then 9
    else if p[0] == CLAUDE_HEADER_DEFAULTS then 10
    else if p[0] == CODEX_HEADER_DEFAULTS then 11
    else if p[0] == OBSERVABILITY then 12
    else if p[0] == DEVIN then 19
    else if p[0] == QUOTA_EXCEEDED then 20
    else if p[0] == ROUTING then 21
    else if p[0] in {STREAMING, NONSTREAM_KEEPALIVE_INTERVAL} then 22
    else if p[0] == PAYLOAD then 23
    else if p[0] == CODEX && |p| > 1 then CodexPartOf(p)
    else PARTS
  }

  function CodexPartOf(p: Path): nat
    requires |p| > 1
  {
    if p[1] in {FORCE_WEBSOCKET, BASISPOINTS} then 9
    else if p[1] == DEVICE_CONVERGENCE then 11
    else if p[1] == TURN_STATE_TICKET && |p| > 2 then
      if p[2] in {ENABLED, FAIL_CLOSED} then 13
      else if p[2] == TTL_SECONDS then 15
      else if p[2] == REFRESH_BEFORE_SECONDS then 16
      else if p[2] == PROBE_INTERVAL_SECONDS then 17
      else if p[2] == ATTEMPT_TIMEOUT_SECONDS then 18
      else 14
    else PARTS
  }

  /** Told apart from the table and its canonical places by the first two keys. */
  predicate Told(p: Path) {
    && |p| > 0
    && (if p[0] in {ROUTING, OBSERVABILITY} then |p| > 1 && Other(p[1]) else !V8Root(p[0]))
    && (p[0] == CODEX ==> |p| > 1 && p[1] != HEADER_DEFAULTS)
  }

  /** A path of a field of the form. */
  predicate FormPath(p: Path) {
    Told(p) && |p| == Depth(p)
  }

  /** A field of the form; none lies in the section that the save tidies. */
  predicate FormField(p: Path) {
    FormPath(p) && p[0] != AUTH
  }

  lemma ToldRegular(p: Path)
    requires Told(p)
    ensures Regular(p)
  {
    hide Mappings, BestMapping, Owner;
    if p[0] in {ROUTING, OBSERVABILITY} {
      FormFieldsRegular(p);
    } else {
      assert !Comparable(HISTORICAL, p) by { NotHistorical(p); }
      forall m | m in Mappings() ensures !Comparable(m.canonical, p) {
        TableFacts(m, []);
      }
    }
  }

  /** No field of the form lies above another. */
  lemma FormPathsApart(p: Path, q: Path)
    requires FormPath(p) && FormPath(q)
    ensures p == q || !Comparable(p, q)
  {
    SameDepth(p, q);
    SameDepth(q, p);
  }

  lemma SameDepth(p: Path, q: Path)
    requires FormPath(p) && FormPath(q)
    ensures p <= q ==> p == q
  {
    if p <= q { assert p[0] == q[0] && (|p| > 1 ==> p[1] == q[1]); }
  }

  /** A map the save makes or clears lies above fields of the form only. */
  predicate FormGroup(g: Path) {
    && 0 < |g| < Depth(g)
    && (g in {[CODEX], [ROUTING], [QUOTA_EXCEEDED]} || Told(g))
  }

  lemma GroupBelowNoField(g: Path, p: Path)
    requires FormGroup(g) && FormPath(p)
    ensures !(p <= g)
  {
  }

  predicate StepOnForm(step: Step) {
    match step
    case Set(path, _) => FormPath(path)
    case Make(path) => FormGroup(path)
    case Clear(path) => FormGroup(path)
    case Tidy => true
  }

  /** A step on the form leaves out every field of the form but its own. */
  lemma StepLeavesOut(step: Step, p: Path)
    requires StepOnForm(step) && FormPath(p) && !Comparable(KEYS_PROVIDER, p)
    ensures OnForm(step)
    ensures (step.Set? && step.path == p) || LeavesOut(step, p)
  {
    hide Depth, Regular, Told;
    match step
    case Set(path, _) =>
      ToldRegular(path);
      FormPathsApart(path, p);
    case Make(path) => GroupIsGroup(path); GroupBelowNoField(path, p);
    case Clear(path) => GroupIsGroup(path); GroupBelowNoField(path, p);
    case Tidy =>
  }

  lemma GroupIsGroup(g: Path)
    requires FormGroup(g)
    ensures Group(g)
  {
    hide Regular, Depth;
    if Told(g) { ToldRegular(g); }
  }

  // ----- The plan is a save of the form, whatever is dirty -----

  ghost predicate PathsDiffer(plan: seq<Guarded>) {
    forall i, j | 0 <= i < j < |plan| && plan[i].step.Set? && plan[j].step.Set? :: plan[i].step.path != plan[j].step.path
  }

  /** The step belongs to a part; only the maps around the Codex fields are made in several, and only the part of the keys tidies. */
  predicate Within(step: Step, k: nat) {
    && StepOnForm(step) && (step.Set? ==> PartOf(step.path) == k) && (step.Tidy? ==> k == 2)
    && (step.Make? || step.Clear? ==> |step.path| > 0 && (step.path[0] == CODEX || PartOf(step.path) == k))
  }

  ghost predicate PartFine(part: seq<Guarded>, k: nat) {
    (forall i | 0 <= i < |part| :: Within(part[i].step, k)) && PathsDiffer(part)
  }

  lemma ServerPartFine(dirty: set<Path>, form: Form)
    ensures PartFine(ServerPart(dirty, form), 0)
  {
    hide DirtyIn, Trim, ImageMode;
  }

  lemma ManagementPartFine(dirty: set<Path>, form: Form)
    ensures PartFine(ManagementPart(dirty, form), 1)
  {
    hide DirtyIn, Trim, ImageMode;
  }

  lemma KeysPartFine(dirty: set<Path>, form: Form, v8: bool, source: Doc)
    ensures PartFine(KeysPart(dirty, form, v8, source), 2)
  {
    hide DirtyIn, HasField, IsMap, Trim;
  }

  lemma LogsPartFine(dirty: set<Path>, form: Form)
    ensures PartFine(LogsPart(dirty, form), 3)
  {
    hide DirtyIn, Trim, ImageMode;
  }

  lemma UsagePartFine(dirty: set<Path>, form: Form)
    ensures PartFine(UsagePart(dirty, form), 4)
  {
    hide DirtyIn, Trim, ImageMode;
  }

  lemma PluginsPartFine(dirty: set<Path>, form: Form)
    ensures PartFine(PluginsPart(dirty, form), 5)
  {
    hide DirtyIn, Trim, ImageMode;
  }

  lemma RequestsPartFine(dirty: set<Path>, form: Form)
    ensures PartFine(RequestsPart(dirty, form), 6)
  {
    hide DirtyIn, Trim, ImageMode;
  }

  lemma RetryPartFine(dirty: set<Path>, form: Form)
    ensures PartFine(RetryPart(dirty, form), 7)
  {
    hide DirtyIn, Trim, ImageMode;
  }

  lemma MediaPartFine(dirty: set<Path>, form: Form)
    ensures PartFine(MediaPart(dirty, form), 8)
  {
    hide DirtyIn, Trim, ImageMode;
  }

  lemma ProvidersPartFine(dirty: set<Path>, form: Form)
    ensures PartFine(ProvidersPart(dirty, form), 9)
  {
    hide DirtyIn, Trim, ImageMode;
  }

  lemma ClaudePartFine(dirty: set<Path>, form: Form)
    ensures PartFine(ClaudePart(dirty, form), 10)
  {
    hide DirtyIn, Trim, ImageMode;
  }

  lemma CodexPartFine(dirty: set<Path>, form: Form)
    ensures PartFine(CodexPart(dirty, form), 11)
  {
    hide DirtyIn, Trim, ImageMode;
  }

  lemma NotificationsPartFine(dirty: set<Path>, form: Form, v8: bool, source: Doc)
    ensures PartFine(NotificationsPart(dirty, form, v8, source), 12)
  {
    hide DirtyIn, HasField, IsMap, Trim;
  }

  lemma TicketsPartFine(dirty: set<Path>, form: Form)
    ensures PartFine(TicketsPart(dirty, form), 13)
  {
    hide DirtyIn, Trim, ImageMode;
  }

  lemma TicketTextsPartFine(dirty: set<Path>, form: Form)
    ensures PartFine(TicketTextsPart(dirty, form), 14)
  {
    hide DirtyIn, Trim, ImageMode;
  }

  lemma DevinPartFine(dirty: set<Path>, form: Form)
    ensures PartFine(DevinPart(dirty, form), 19)
  {
    hide DirtyIn, Trim, ImageMode;
  }

  lemma QuotaPartFine(dirty: set<Path>, form: Form)
    ensures PartFine(QuotaPart(dirty, form), 20)
  {
    hide DirtyIn, Trim, ImageMode;
  }

  lemma RoutingPartFine(dirty: set<Path>, form: Form)
    ensures PartFine(RoutingPart(dirty, form), 21)
  {
    hide DirtyIn, Trim, ImageMode;
  }

  lemma StreamingPartFine(dirty: set<Path>, form: Form)
    ensures PartFine(StreamingPart(dirty, form), 22)
  {
    hide DirtyIn, Trim, ImageMode;
  }

  lemma PayloadPartFine(dirty: set<Path>, form: Form)
    ensures PartFine(PayloadPart(dirty, form), 23)
  {
    hide DirtyIn, Trim, ImageMode;
  }

  lemma TimingPartFine(dirty: set<Path>, form: Form, key: Key)
    requires key in {TTL_SECONDS, REFRESH_BEFORE_SECONDS, PROBE_INTERVAL_SECONDS, ATTEMPT_TIMEOUT_SECONDS}
    ensures PartFine(TimingPart(dirty, form, key), PartOf([CODEX, TURN_STATE_TICKET, key]))
  {
  }

  lemma PartIsFine(k: nat, dirty: set<Path>, form: Form, v8: bool, source: Doc)
    requires k < PARTS
    ensures PartFine(Part(k, dirty, form, v8, source), k)
  {
    hide PartFine, ServerPart, ManagementPart, KeysPart, LogsPart, UsagePart, PluginsPart, RequestsPart, RetryPart,
         MediaPart, ProvidersPart, ClaudePart, CodexPart, NotificationsPart, TicketsPart, TicketTextsPart, DevinPart,
         QuotaPart, RoutingPart, StreamingPart, PayloadPart, TimingPart;
    match k
    case 0 => ServerPartFine(dirty, form);
    case 1 => ManagementPartFine(dirty, form);
    case 2 => KeysPartFine(dirty, form, v8, source);
    case 3 => LogsPartFine(dirty, form);
    case 4 => UsagePartFine(dirty, form);
    case 5 => PluginsPartFine(dirty, form);
    case 6 => RequestsPartFine(dirty, form);
    case 7 => RetryPartFine(dirty, form);
    case 8 => MediaPartFine(dirty, form);
    case 9 => ProvidersPartFine(dirty, form);
    case 10 => ClaudePartFine(dirty, form);
    case 11 => CodexPartFine(dirty, form);
    case 12 => NotificationsPartFine(dirty, form, v8, source);
    case 13 => TicketsPartFine(dirty, form);
    case 14 => TicketTextsPartFine(dirty, form);
    case 15 => TimingPartFine(dirty, form, TTL_SECONDS);
    case 16 => TimingPartFine(dirty, form, REFRESH_BEFORE_SECONDS);
    case 17 => TimingPartFine(dirty, form, PROBE_INTERVAL_SECONDS);
    case 18 => TimingPartFine(dirty, form, ATTEMPT_TIMEOUT_SECONDS);
    case 19 => DevinPartFine(dirty, form);
    case 20 => QuotaPartFine(dirty, form);
    case 21 => RoutingPartFine(dirty, form);
    case 22 => StreamingPartFine(dirty, form);
    case 23 => PayloadPartFine(dirty, form);
    case _ =>
  }

  /** The first parts of the plan. */
  ghost predicate PlanFine(plan: seq<Guarded>, n: nat) {
    && (forall i | 0 <= i < |plan| :: StepOnForm(plan[i].step))
    && (forall i | 0 <= i < |plan| && plan[i].step.Set? :: PartOf(plan[i].step.path) < n)
    && PathsDiffer(plan)
  }

  lemma JoinFine(plan: seq<Guarded>, part: seq<Guarded>, n: nat)
    requires PlanFine(plan, n) && PartFine(part, n)
    ensures PlanFine(plan + part, n + 1)
  {
    hide StepOnForm, PartOf;
  }

  lemma {:induction false} PlanIsFine(n: nat, dirty: set<Path>, form: Form, v8: bool, source: Doc)
    requires n <= PARTS
    ensures PlanFine(Plan(n, dirty, form, v8, source), n)
  {
    hide Part, PartFine;
    if n > 0 {
      hide PlanFine;
      PlanIsFine(n - 1, dirty, form, v8, source);
      PartIsFine(n - 1, dirty, form, v8, source);
      JoinFine(Plan(n - 1, dirty, form, v8, source), Part(n - 1, dirty, form, v8, source), n - 1);
    }
  }

  lemma {:induction false} MadeFromPlan(plan: seq<Guarded>, k: nat)
    requires k < |Made(plan)|
    ensures exists i :: 0 <= i < |plan| && plan[i].on && plan[i].step == Made(plan)[k]
  {
    var n := |plan| - 1;
    if plan[n].on && k == |Made(plan)| - 1 {
      assert plan[n].step == Made(plan)[k];
    } else {
      MadeFromPlan(plan[..n], k);
      var i :| 0 <= i < n && plan[..n][i].on && plan[..n][i].step == Made(plan)[k];
      assert plan[i] == plan[..n][i];
    }
  }

  /** No field of the form is where the old provider of the client keys is. */
  lemma KeysProviderApart(p: Path)
    requires FormPath(p) && PartOf(p) < PARTS
    ensures !Comparable(KEYS_PROVIDER, p)
  {
    assert KEYS_PROVIDER[0] == AUTH;
  }

  lemma {:induction false} MadeIsFormSave(plan: seq<Guarded>)
    requires PlanFine(plan, PARTS)
    ensures FormSave(Made(plan))
  {
    hide StepOnForm, PartOf, OnForm, LeavesOut, FormPath;
    if |plan| > 0 {
      var n := |plan| - 1;
      MadeIsFormSave(plan[..n]);
      if plan[n].on { OneMoreMade(plan, n); }
    }
  }

  lemma {:induction false} OneMoreMade(plan: seq<Guarded>, n: nat)
    requires PlanFine(plan, PARTS) && n == |plan| - 1 && plan[n].on && FormSave(Made(plan[..n]))
    ensures FormSave(Made(plan))
  {
    hide PartOf, OnForm, LeavesOut, FormPath, FormGroup;
    var before, step := Made(plan[..n]), plan[n].step;
    assert Made(plan) == before + [step];
    assert OnForm(step) by { hide *; FineOnForm(plan, n); }
    if step.Set? {
      forall k | 0 <= k < |before| ensures LeavesOut(before[k], step.path) {
        MadeFromPlan(plan[..n], k);
        var i :| 0 <= i < n && plan[..n][i].on && plan[..n][i].step == before[k];
        assert plan[..n][i] == plan[i];
        FormPathKnown(step);
        KeysProviderApart(step.path);
        StepLeavesOut(plan[i].step, step.path);
      }
    }
    forall i | 0 <= i < |Made(plan)| && Made(plan)[i].Set? ensures Untouched(Made(plan)[..i], Made(plan)[i].path) {
      if i < |before| {
        assert Made(plan)[..i] == before[..i];
      } else {
        assert Made(plan)[..i] == before;
      }
    }
  }

  lemma FormPathKnown(step: Step)
    requires StepOnForm(step)
    ensures step.Set? ==> FormPath(step.path)
  {
  }

  lemma FineOnForm(plan: seq<Guarded>, n: nat)
    requires PlanFine(plan, PARTS) && n < |plan|
    ensures OnForm(plan[n].step)
  {
    hide Depth, Regular, Told, PartOf, PathsDiffer, Group;
    match plan[n].step
    case Set(path, _) => ToldRegular(path);
    case Make(path) => GroupIsGroup(path);
    case Clear(path) => GroupIsGroup(path);
    case Tidy =>
  }

  /** Whatever is dirty, the writes of the save edit every field at most once and touch nothing above or below one. */
  lemma SaveIsFormSave(dirty: set<Path>, form: Form, source: Doc)
    ensures FormSave(SaveSteps(dirty, form, source))
  {
    hide *;
    PlanIsFine(PARTS, dirty, form, IsV8Layout(source), source);
    MadeIsFormSave(Plan(PARTS, dirty, form, IsV8Layout(source), source));
    StepsAreMade(dirty, form, source);
  }

  lemma StepsAreMade(dirty: set<Path>, form: Form, source: Doc)
    ensures SaveSteps(dirty, form, source) == Made(Plan(PARTS, dirty, form, IsV8Layout(source), source))
  {
    hide Made, Plan, IsV8Layout;
  }

  /** Any path of a field, edited by the save or not, is left out by every write but its own. */
  lemma SaveKnowsField(dirty: set<Path>, form: Form, source: Doc, p: Path)
    requires FormField(p)
    ensures FieldOf(SaveSteps(dirty, form, source), p) && Regular(p)
  {
    hide StepOnForm, PartOf, LeavesOut, Plan, IsV8Layout, Regular, Depth;
    var plan := Plan(PARTS, dirty, form, IsV8Layout(source), source);
    PlanIsFine(PARTS, dirty, form, IsV8Layout(source), source);
    ToldRegular(p);
    assert KEYS_PROVIDER[0] == AUTH;
    forall k | 0 <= k < |Made(plan)|
      ensures (Made(plan)[k].Set? && Made(plan)[k].path == p) || LeavesOut(Made(plan)[k], p)
    {
      MadeFromPlan(plan, k);
      var i :| 0 <= i < |plan| && plan[i].on && plan[i].step == Made(plan)[k];
      StepLeavesOut(plan[i].step, p);
    }
  }
}
