/**
  The save goes through, and it stays within what was edited. The groups are made
  before the fields below them are written, so no write meets a scalar where it
  needs a map; and every write is for the sake of a field that is dirty.
 */
module ConfigCompletes {
  import opened YamlTree
  import opened ConfigPaths
  import opened ConfigSave
  import opened ConfigLens
  import opened ConfigForm

  // ----- Groups come first -----

  function Above(p: Path): Path
    requires |p| > 0
  {
    p[..|p| - 1]
  }

  /** A write below a group that does not make the group itself. */
  predicate Deep(step: Step) {
    && step.Set? && (step.edit.Boolean? || step.edit.Str? || step.edit.Whole? || step.edit.Mode?)
    && |step.path| > 1
  }

  /** A write right below the group that does not clean up above it. */
  predicate Beneath(step: Step, group: Path) {
    step.Set? && !step.edit.Remove? && !step.edit.Discard? && |step.path| == |group| + 1 && group <= step.path
  }

  /** Groups that move as a whole in the V8 layout, and the one of which no field with a deep write moves. */
  predicate MovesWhole(group: Path) {
    |group| > 0 && group[0] in {TLS, REMOTE_MANAGEMENT, PPROF, CLAUDE_HEADER_DEFAULTS, CODEX_HEADER_DEFAULTS, CODEX, STREAMING}
  }

  /** Every deep write of the part comes after the making of its group, which is the j-th entry, with only writes to the group in between. */
  ghost predicate GroupFirst(part: seq<Guarded>, j: nat) {
    forall i | 0 <= i < |part| && Deep(part[i].step) ::
      && j < i && part[j].step == Make(Above(part[i].step.path)) && (part[i].on ==> part[j].on)
      && (MovesWhole(Above(part[i].step.path)) || Above(part[i].step.path) == [ROUTING])
      && forall m | j < m <= i :: Beneath(part[m].step, Above(part[i].step.path))
  }

  lemma GroupFirstBy(part: seq<Guarded>, j: nat, last: nat, group: Path)
    requires j < last < |part| && part[j].step == Make(group) && (MovesWhole(group) || group == [ROUTING])
    requires forall m | j < m <= last :: Beneath(part[m].step, group) && (part[m].on && Deep(part[m].step) ==> part[j].on)
    requires forall m | 0 <= m < |part| && !(j < m <= last) :: !Deep(part[m].step)
    ensures GroupFirst(part, j)
  {
    hide MovesWhole;
    forall i | 0 <= i < |part| && Deep(part[i].step) ensures j < i <= last && Above(part[i].step.path) == group {
      AboveBeneath(part[i].step, group);
    }
  }

  lemma AboveBeneath(step: Step, group: Path)
    requires Deep(step)
    ensures Beneath(step, group) ==> Above(step.path) == group
  {
  }

  lemma ServerGroupFirst(dirty: set<Path>, form: Form)
    ensures GroupFirst(ServerPart(dirty, form), 2)
  {
    assert forall p: Path | p in dirty && |p| == 2 && p[0] == TLS :: [TLS] < p;
    GroupFirstBy(ServerPart(dirty, form), 2, 5, [TLS]);
  }

  lemma ManagementGroupFirst(dirty: set<Path>, form: Form)
    ensures GroupFirst(ManagementPart(dirty, form), 0)
  {
    assert forall p: Path | p in dirty && |p| == 2 && p[0] == REMOTE_MANAGEMENT :: [REMOTE_MANAGEMENT] < p;
    GroupFirstBy(ManagementPart(dirty, form), 0, 5, [REMOTE_MANAGEMENT]);
  }

  lemma LogsGroupFirst(dirty: set<Path>, form: Form)
    ensures GroupFirst(LogsPart(dirty, form), 1)
  {
    assert forall p: Path | p in dirty && |p| == 2 && p[0] == PPROF :: [PPROF] < p;
    GroupFirstBy(LogsPart(dirty, form), 1, 3, [PPROF]);
  }

  lemma ClaudeGroupFirst(dirty: set<Path>, form: Form)
    ensures GroupFirst(ClaudePart(dirty, form), 0)
  {
    assert forall p: Path | p in dirty && |p| == 2 && p[0] == CLAUDE_HEADER_DEFAULTS :: [CLAUDE_HEADER_DEFAULTS] < p;
    GroupFirstBy(ClaudePart(dirty, form), 0, 7, [CLAUDE_HEADER_DEFAULTS]);
  }

  lemma CodexGroupFirst(dirty: set<Path>, form: Form)
    ensures GroupFirst(CodexPart(dirty, form), 0)
  {
    assert forall p: Path | p in dirty && |p| == 2 && p[0] == CODEX_HEADER_DEFAULTS :: [CODEX_HEADER_DEFAULTS] < p;
    GroupFirstBy(CodexPart(dirty, form), 0, 3, [CODEX_HEADER_DEFAULTS]);
  }

  lemma TimingGroupFirst(dirty: set<Path>, form: Form, key: Key)
    ensures GroupFirst(TimingPart(dirty, form, key), 0)
  {
  }

  lemma RoutingGroupFirst(dirty: set<Path>, form: Form)
    ensures GroupFirst(RoutingPart(dirty, form), 0)
  {
    assert forall p: Path | p in dirty && |p| == 2 && p[0] == ROUTING :: [ROUTING] < p;
    GroupFirstBy(RoutingPart(dirty, form), 0, 3, [ROUTING]);
  }

  lemma StreamingGroupFirst(dirty: set<Path>, form: Form)
    ensures GroupFirst(StreamingPart(dirty, form), 0)
  {
    assert forall p: Path | p in dirty && |p| == 2 && p[0] == STREAMING :: [STREAMING] < p;
    GroupFirstBy(StreamingPart(dirty, form), 0, 2, [STREAMING]);
  }

  /** The other parts write nothing below a group but what makes its own parents. */
  ghost predicate Shallow(part: seq<Guarded>) {
    forall i | 0 <= i < |part| :: !Deep(part[i].step)
  }

  lemma RequestPartsShallow(dirty: set<Path>, form: Form, v8: bool, source: Doc)
    ensures Shallow(KeysPart(dirty, form, v8, source)) && Shallow(UsagePart(dirty, form)) && Shallow(PluginsPart(dirty, form))
    ensures Shallow(RequestsPart(dirty, form)) && Shallow(RetryPart(dirty, form))
  {
    hide HasField, IsMap, Trim;
  }

  lemma ProviderPartsShallow(dirty: set<Path>, form: Form)
    ensures Shallow(MediaPart(dirty, form)) && Shallow(ProvidersPart(dirty, form)) && Shallow(TicketsPart(dirty, form))
    ensures Shallow(QuotaPart(dirty, form))
  {
    hide Trim, ImageMode;
  }

  lemma OtherPartsShallow(dirty: set<Path>, form: Form, v8: bool, source: Doc)
    ensures Shallow(NotificationsPart(dirty, form, v8, source))
    ensures Shallow(TicketTextsPart(dirty, form)) && Shallow(DevinPart(dirty, form)) && Shallow(PayloadPart(dirty, form))
  {
    hide Trim, HasField, Truthy, Get;
  }

  lemma PartGroupFirst(k: nat, dirty: set<Path>, form: Form, v8: bool, source: Doc) returns (j: nat)
    ensures GroupFirst(Part(k, dirty, form, v8, source), j)
  {
    RequestPartsShallow(dirty, form, v8, source);
    ProviderPartsShallow(dirty, form);
    OtherPartsShallow(dirty, form, v8, source);
    hide ServerPart, ManagementPart, KeysPart, LogsPart, UsagePart, PluginsPart, RequestsPart, RetryPart, MediaPart, ProvidersPart,
         ClaudePart, CodexPart, NotificationsPart, TicketsPart, TicketTextsPart, TimingPart, DevinPart, QuotaPart, RoutingPart,
         StreamingPart, PayloadPart, Deep, Beneath;
    j := 0;
    match k
    case 0 => j := 2; ServerGroupFirst(dirty, form);
    case 1 => ManagementGroupFirst(dirty, form);
    case 3 => j := 1; LogsGroupFirst(dirty, form);
    case 10 => ClaudeGroupFirst(dirty, form);
    case 11 => CodexGroupFirst(dirty, form);
    case 15 => TimingGroupFirst(dirty, form, TTL_SECONDS);
    case 16 => TimingGroupFirst(dirty, form, REFRESH_BEFORE_SECONDS);
    case 17 => TimingGroupFirst(dirty, form, PROBE_INTERVAL_SECONDS);
    case 18 => TimingGroupFirst(dirty, form, ATTEMPT_TIMEOUT_SECONDS);
    case 21 => RoutingGroupFirst(dirty, form);
    case 22 => StreamingGroupFirst(dirty, form);
    case _ =>
  }

  // ----- Along the plan -----

  lemma MadeNext(plan: seq<Guarded>, i: nat)
    requires i < |plan|
    ensures Made(plan[..i + 1]) == if plan[i].on then Made(plan[..i]) + [plan[i].step] else Made(plan[..i])
  {
    assert plan[..i + 1][..i] == plan[..i];
  }

  /** Every step made is the one of some entry, with the entries before it made before it. */
  lemma {:induction false} MadeAt(plan: seq<Guarded>, n: nat) returns (i: nat)
    requires n < |Made(plan)|
    ensures i < |plan| && plan[i].on && Made(plan[..i]) == Made(plan)[..n] && plan[i].step == Made(plan)[n]
  {
    var last := |plan| - 1;
    assert plan[..last + 1] == plan;
    MadeNext(plan, last);
    if plan[last].on && n == |Made(plan)| - 1 {
      i := last;
      assert Made(plan)[..n] == Made(plan[..last]);
    } else {
      i := MadeAt(plan[..last], n);
      assert plan[..last][..i] == plan[..i] && Made(plan[..last])[..n] == Made(plan)[..n];
    }
  }

  lemma {:induction false} MadeGrows(plan: seq<Guarded>, i: nat, j: nat)
    requires i <= j <= |plan|
    ensures Made(plan[..i]) <= Made(plan[..j])
  {
    if i < j {
      MadeGrows(plan, i, j - 1);
      MadeNext(plan, j - 1);
    }
  }

  /** Each entry of the plan is one of a part, which stands in the plan as it is. */
  lemma {:induction false} EntryOfPart(n: nat, dirty: set<Path>, form: Form, v8: bool, source: Doc, i: nat) returns (k: nat, at: nat)
    requires i < |Plan(n, dirty, form, v8, source)|
    ensures k < n && at == |Plan(k, dirty, form, v8, source)|
    ensures at <= i < at + |Part(k, dirty, form, v8, source)| <= |Plan(n, dirty, form, v8, source)|
    ensures Plan(n, dirty, form, v8, source)[at..at + |Part(k, dirty, form, v8, source)|] == Part(k, dirty, form, v8, source)
  {
    hide Part;
    var before := Plan(n - 1, dirty, form, v8, source);
    if i < |before| {
      k, at := EntryOfPart(n - 1, dirty, form, v8, source, i);
    } else {
      k, at := n - 1, |before|;
    }
  }

  /** A write right below a map leaves it a map. */
  lemma WriteKeepsGroup(v8: bool, source: Doc, before: Doc, after: Doc, step: Step, group: Path)
    requires StepMeets(v8, source, before, after, step) && Beneath(step, group) && !Moved(v8, step.path) && IsMap(before, group)
    ensures IsMap(after, group)
  {
    hide Canonical, Get, HasField, Copies;
    var path := step.path;
    assert path[..|path| - 1] == group;
    assert Target(v8, path) == path;
    var effect := EffectOf(v8, source, before, path, step.edit);
    if effect.Written? { MapAbove(after, path); }
  }

  lemma MakeMakesGroup(v8: bool, source: Doc, before: Doc, after: Doc, group: Path)
    requires StepMeets(v8, source, before, after, Make(group)) && !Moved(v8, group)
    ensures IsMap(after, group)
  {
  }

  // ----- What moves in the V8 layout -----

  lemma MovingRows()
    ensures Mapping([CODEX], [OAUTH, PROVIDERS, CODEX]) in Mappings() && Mapping([TLS], [SERVER, TLS]) in Mappings()
    ensures Mapping([REMOTE_MANAGEMENT], [MANAGEMENT]) in Mappings() && Mapping([STREAMING], [REQUESTS, STREAMING]) in Mappings()
    ensures Mapping([CODEX_HEADER_DEFAULTS], [OAUTH, PROVIDERS, CODEX, HEADER_DEFAULTS]) in Mappings()
    ensures Mapping([CLAUDE_HEADER_DEFAULTS], [UPSTREAM, CLAUDE, HEADER_DEFAULTS]) in Mappings()
    ensures Mapping([PPROF], [OBSERVABILITY, PPROF]) in Mappings()
  {
    assert Rows1()[0] in Mappings() && Rows1()[3] in Mappings() && Rows1()[5] in Mappings();
    assert Rows2()[6] in Mappings();
    assert Rows3()[1] in Mappings() && Rows3()[3] in Mappings();
    assert Rows4()[8] in Mappings();
  }

  lemma WholeGroupMoves(p: Path)
    requires MovesWhole(p)
    ensures Moved(true, p)
  {
    hide Mappings, BestMapping, Owner, V8Root;
    BestMappingIsLongest(Mappings(), p);
    MovingRows();
    assert exists m | m in Mappings() :: m.legacy <= p;
    MappedFacts(p, []);
  }

  lemma RoutingStays(p: Path)
    requires |p| > 0 && p[0] == ROUTING
    ensures !Moved(true, p)
  {
    hide Mappings, BestMapping, Owner;
    if Mapped(p) { MappedFacts(p, []); }
    if !Mapped(p) { UnmappedFacts(p); }
  }

  // ----- No write throws -----

  /** From the making of a group on to the i-th entry of the part, the group is a map. */
  lemma {:induction false} GroupStays(
      v8: bool, source: Doc, plan: seq<Guarded>, docs: seq<Doc>, group: Path, j: nat, i: nat)
    requires j < i <= |plan| && |docs| > |Made(plan[..i])|
    requires forall k: nat | k < |Made(plan[..i])| :: StepMeets(v8, source, docs[k], docs[k + 1], Made(plan[..i])[k])
    requires plan[j].on && plan[j].step == Make(group) && !Moved(v8, group)
    requires forall m | j < m < i :: Beneath(plan[m].step, group) && !Moved(v8, plan[m].step.path)
    ensures IsMap(docs[|Made(plan[..i])|], group)
    decreases i
  {
    hide StepMeets, Moved, IsMap, Beneath;
    var n := i - 1;
    MadeNext(plan, n);
    var before := |Made(plan[..n])|;
    if n == j {
      MakeMakesGroup(v8, source, docs[before], docs[before + 1], group);
    } else {
      forall k: nat | k < before ensures StepMeets(v8, source, docs[k], docs[k + 1], Made(plan[..n])[k]) {
        assert Made(plan[..n])[k] == Made(plan[..i])[k];
      }
      GroupStays(v8, source, plan, docs, group, j, n);
      if plan[n].on { WriteKeepsGroup(v8, source, docs[before], docs[before + 1], plan[n].step, group); }
    }
  }

  /** Where a group does not move as a whole, neither does anything below it that the save writes. */
  lemma GroupMovesOrStays(v8: bool, group: Path, path: Path)
    requires (MovesWhole(group) || group == [ROUTING]) && |path| == |group| + 1 && group <= path
    ensures Moved(v8, group) <==> Moved(v8, path)
  {
    hide MovesWhole, Canonical;
    if v8 {
      if group == [ROUTING] {
        RoutingStays(group);
        RoutingStays(path);
      } else {
        WholeGroupMoves(group);
        assert MovesWhole(path) by { BelowMovesWhole(group, path); }
        WholeGroupMoves(path);
      }
    }
  }

  lemma BelowMovesWhole(group: Path, path: Path)
    requires MovesWhole(group) && group <= path
    ensures MovesWhole(path)
  {
  }

  lemma {:induction false} DocsAreMaps(v8: bool, source: Doc, steps: seq<Step>, docs: seq<Doc>, n: nat)
    requires Run(v8, source, steps, docs) && source.Map? && n <= |steps|
    ensures docs[n].Map?
  {
    hide Meets, GroupMeets, EffectOf, KeepsMapAbove;
    if n > 0 { StepGivesMap(v8, source, docs[n - 1], docs[n], steps[n - 1]); }
  }

  lemma StepGivesMap(v8: bool, source: Doc, before: Doc, after: Doc, step: Step)
    requires StepMeets(v8, source, before, after, step)
    ensures after.Map?
  {
    hide EffectOf, KeepsMapAbove, Canonical, Target, Copies;
  }

  /** The entry of the plan a deep write comes from, with its group made before it. */
  lemma GroupMadeBefore(dirty: set<Path>, form: Form, source: Doc, i: nat) returns (j: nat)
    requires var plan := Plan(PARTS, dirty, form, IsV8Layout(source), source);
      i < |plan| && plan[i].on && Deep(plan[i].step)
    ensures var plan := Plan(PARTS, dirty, form, IsV8Layout(source), source);
      var group := Above(plan[i].step.path);
      && j < i && plan[j].on && plan[j].step == Make(group) && (MovesWhole(group) || group == [ROUTING])
      && forall m | j < m <= i :: Beneath(plan[m].step, group)
  {
    hide Part, Plan, IsV8Layout, Deep, Beneath, MovesWhole;
    var v8 := IsV8Layout(source);
    var plan := Plan(PARTS, dirty, form, v8, source);
    var k, at := EntryOfPart(PARTS, dirty, form, v8, source, i);
    var part := Part(k, dirty, form, v8, source);
    var first := PartGroupFirst(k, dirty, form, v8, source);
    forall m | at <= m < at + |part| ensures plan[m] == part[m - at] { assert plan[at..at + |part|][m - at] == plan[m]; }
    assert Deep(part[i - at].step);
    j := at + first;
  }

  /** No write of the save ever meets a scalar where it needs a map: the save goes through. */
  lemma NothingThrows(dirty: set<Path>, form: Form, source: Doc, docs: seq<Doc>, n: nat)
    requires source.Map? && n < |SaveSteps(dirty, form, source)|
    requires Run(IsV8Layout(source), source, SaveSteps(dirty, form, source)[..n], docs)
    ensures !Throws(IsV8Layout(source), docs[n], SaveSteps(dirty, form, source)[n])
  {
    hide Plan, IsV8Layout, StepMeets, Moved, IsMap, Beneath, MovesWhole;
    var v8, steps := IsV8Layout(source), SaveSteps(dirty, form, source);
    var plan := Plan(PARTS, dirty, form, v8, source);
    var i := MadeAt(plan, n);
    var step := steps[n];
    DocsAreMaps(v8, source, steps[..n], docs, n);
    if Throws(v8, docs[n], step) {
      if Deep(step) {
        var path := step.path;
        var group := Above(path);
        var j := GroupMadeBefore(dirty, form, source, i);
        forall m | j < m <= i ensures plan[m].step.Set? && (Moved(v8, group) <==> Moved(v8, plan[m].step.path)) {
          BeneathMoves(v8, group, plan[m].step);
        }
        assert Above(path) == path[..|path| - 1];
        GroupStays(v8, source, plan, docs, group, j, i);
      } else {
        RootIsMap(docs[n], step.path);
      }
    }
  }

  lemma BeneathMoves(v8: bool, group: Path, step: Step)
    requires (MovesWhole(group) || group == [ROUTING]) && Beneath(step, group)
    ensures step.Set? && (Moved(v8, group) <==> Moved(v8, step.path))
  {
    hide MovesWhole, Moved;
    GroupMovesOrStays(v8, group, step.path);
  }

  lemma RootIsMap(doc: Doc, path: Path)
    requires doc.Map? && |path| == 1
    ensures IsMap(doc, path[..|path| - 1])
  {
  }

  // ----- Nothing is written but for what is dirty -----

  /**
    The client keys also have a place under access, a new panel repository also
    deletes its old name, and an edit of the notifications may complete them.
   */
  ghost predicate ForDirty(dirty: set<Path>, step: Step) {
    match step
    case Set(path, _) =>
      || path in dirty || (path == PANEL_ALIAS && PANEL_FIELD in dirty) || (path == [ACCESS, API_KEYS] && [API_KEYS] in dirty)
      || (path in {NOTIFICATION_NAME, NOTIFICATION_PLATFORM, NOTIFICATION_SECRET} && exists p | p in dirty :: NOTIFICATIONS < p)
    case Make(group) => (exists p | p in dirty :: group < p) || (group == [ACCESS] && [API_KEYS] in dirty)
    case Clear(group) => exists p | p in dirty :: group < p
    case Tidy => [API_KEYS] in dirty
  }

  ghost predicate PartForDirty(part: seq<Guarded>, dirty: set<Path>) {
    forall i | 0 <= i < |part| && part[i].on :: ForDirty(dirty, part[i].step)
  }

  lemma ServerForDirty(dirty: set<Path>, form: Form)
    ensures PartForDirty(ServerPart(dirty, form), dirty)
  {
    hide Trim, ImageMode, HasField, IsMap, Truthy, Get;
  }

  lemma ManagementForDirty(dirty: set<Path>, form: Form)
    ensures PartForDirty(ManagementPart(dirty, form), dirty)
  {
    hide Trim, ImageMode, HasField, IsMap, Truthy, Get;
  }

  lemma KeysForDirty(dirty: set<Path>, form: Form, v8: bool, source: Doc)
    ensures PartForDirty(KeysPart(dirty, form, v8, source), dirty)
  {
    hide Trim, ImageMode, HasField, IsMap, Truthy, Get;
  }

  lemma LogsForDirty(dirty: set<Path>, form: Form)
    ensures PartForDirty(LogsPart(dirty, form), dirty)
  {
    hide Trim, ImageMode, HasField, IsMap, Truthy, Get;
  }

  lemma UsageForDirty(dirty: set<Path>, form: Form)
    ensures PartForDirty(UsagePart(dirty, form), dirty)
  {
    hide Trim, ImageMode, HasField, IsMap, Truthy, Get;
  }

  lemma PluginsForDirty(dirty: set<Path>, form: Form)
    ensures PartForDirty(PluginsPart(dirty, form), dirty)
  {
    hide Trim, ImageMode, HasField, IsMap, Truthy, Get;
  }

  lemma RequestsForDirty(dirty: set<Path>, form: Form)
    ensures PartForDirty(RequestsPart(dirty, form), dirty)
  {
    hide Trim, ImageMode, HasField, IsMap, Truthy, Get;
  }

  lemma RetryForDirty(dirty: set<Path>, form: Form)
    ensures PartForDirty(RetryPart(dirty, form), dirty)
  {
    hide Trim, ImageMode, HasField, IsMap, Truthy, Get;
  }

  lemma MediaForDirty(dirty: set<Path>, form: Form)
    ensures PartForDirty(MediaPart(dirty, form), dirty)
  {
    hide Trim, ImageMode, HasField, IsMap, Truthy, Get;
  }

  lemma ProvidersForDirty(dirty: set<Path>, form: Form)
    ensures PartForDirty(ProvidersPart(dirty, form), dirty)
  {
    hide Trim, ImageMode, HasField, IsMap, Truthy, Get;
  }

  lemma ClaudeForDirty(dirty: set<Path>, form: Form)
    ensures PartForDirty(ClaudePart(dirty, form), dirty)
  {
    hide Trim, ImageMode, HasField, IsMap, Truthy, Get;
  }

  lemma CodexForDirty(dirty: set<Path>, form: Form)
    ensures PartForDirty(CodexPart(dirty, form), dirty)
  {
    hide Trim, ImageMode, HasField, IsMap, Truthy, Get;
    assert [CODEX] < [CODEX, DEVICE_CONVERGENCE];
  }

  lemma NotificationsForDirty(dirty: set<Path>, form: Form, v8: bool, source: Doc)
    ensures PartForDirty(NotificationsPart(dirty, form, v8, source), dirty)
  {
    hide Trim, ImageMode, HasField, IsMap, Truthy, Get;
    assert NOTIFICATIONS < NOTIFICATION_PLATFORM && NOTIFICATIONS < NOTIFICATION_SECRET;
  }

  lemma TicketsForDirty(dirty: set<Path>, form: Form)
    ensures PartForDirty(TicketsPart(dirty, form), dirty)
  {
    hide Trim, ImageMode, HasField, IsMap, Truthy, Get;
    assert TICKET < [CODEX, TURN_STATE_TICKET, ENABLED] && TICKET < [CODEX, TURN_STATE_TICKET, FAIL_CLOSED];
  }

  lemma TicketTextsForDirty(dirty: set<Path>, form: Form)
    ensures PartForDirty(TicketTextsPart(dirty, form), dirty)
  {
    hide Trim, ImageMode, HasField, IsMap, Truthy, Get;
    assert TICKET < TICKET_PROXY && TICKET < TICKET_MODELS;
  }

  lemma DevinForDirty(dirty: set<Path>, form: Form)
    ensures PartForDirty(DevinPart(dirty, form), dirty)
  {
    hide Trim, ImageMode, HasField, IsMap, Truthy, Get;
    assert [DEVIN] < SENSITIVE_WORDS_FIELD;
  }

  lemma QuotaForDirty(dirty: set<Path>, form: Form)
    ensures PartForDirty(QuotaPart(dirty, form), dirty)
  {
    hide Trim, ImageMode, HasField, IsMap, Truthy, Get;
  }

  lemma RoutingForDirty(dirty: set<Path>, form: Form)
    ensures PartForDirty(RoutingPart(dirty, form), dirty)
  {
    hide Trim, ImageMode, HasField, IsMap, Truthy, Get;
  }

  lemma StreamingForDirty(dirty: set<Path>, form: Form)
    ensures PartForDirty(StreamingPart(dirty, form), dirty)
  {
    hide Trim, ImageMode, HasField, IsMap, Truthy, Get;
  }

  lemma PayloadForDirty(dirty: set<Path>, form: Form)
    ensures PartForDirty(PayloadPart(dirty, form), dirty)
  {
    hide Trim, ImageMode, HasField, IsMap, Truthy, Get;
  }

  lemma TimingForDirty(dirty: set<Path>, form: Form, key: Key)
    ensures PartForDirty(TimingPart(dirty, form, key), dirty)
  {
    var field := [CODEX, TURN_STATE_TICKET, key];
    assert TICKET < field && [CODEX] < field;
  }

  lemma EachPartForDirty(k: nat, dirty: set<Path>, form: Form, v8: bool, source: Doc)
    ensures PartForDirty(Part(k, dirty, form, v8, source), dirty)
  {
    hide ServerPart, ManagementPart, KeysPart, LogsPart, UsagePart, PluginsPart, RequestsPart, RetryPart, MediaPart, ProvidersPart,
         ClaudePart, CodexPart, NotificationsPart, TicketsPart, TicketTextsPart, TimingPart, DevinPart, QuotaPart, RoutingPart,
         StreamingPart, PayloadPart, ForDirty;
    match k
    case 0 => ServerForDirty(dirty, form);
    case 1 => ManagementForDirty(dirty, form);
    case 2 => KeysForDirty(dirty, form, v8, source);
    case 3 => LogsForDirty(dirty, form);
    case 4 => UsageForDirty(dirty, form);
    case 5 => PluginsForDirty(dirty, form);
    case 6 => RequestsForDirty(dirty, form);
    case 7 => RetryForDirty(dirty, form);
    case 8 => MediaForDirty(dirty, form);
    case 9 => ProvidersForDirty(dirty, form);
    case 10 => ClaudeForDirty(dirty, form);
    case 11 => CodexForDirty(dirty, form);
    case 12 => NotificationsForDirty(dirty, form, v8, source);
    case 13 => TicketsForDirty(dirty, form);
    case 14 => TicketTextsForDirty(dirty, form);
    case 19 => DevinForDirty(dirty, form);
    case 20 => QuotaForDirty(dirty, form);
    case 21 => RoutingForDirty(dirty, form);
    case 22 => StreamingForDirty(dirty, form);
    case 23 => PayloadForDirty(dirty, form);
    case 15 => TimingForDirty(dirty, form, TTL_SECONDS);
    case 16 => TimingForDirty(dirty, form, REFRESH_BEFORE_SECONDS);
    case 17 => TimingForDirty(dirty, form, PROBE_INTERVAL_SECONDS);
    case 18 => TimingForDirty(dirty, form, ATTEMPT_TIMEOUT_SECONDS);
    case _ =>
  }

  /** Every write of the save is for the sake of a dirty field; with nothing dirty there is none. */
  lemma OnlyForDirty(dirty: set<Path>, form: Form, source: Doc, n: nat)
    requires n < |SaveSteps(dirty, form, source)|
    ensures ForDirty(dirty, SaveSteps(dirty, form, source)[n]) && dirty != {}
  {
    hide Part, Plan, IsV8Layout;
    var v8 := IsV8Layout(source);
    var plan := Plan(PARTS, dirty, form, v8, source);
    var i := MadeAt(plan, n);
    var k, at := EntryOfPart(PARTS, dirty, form, v8, source, i);
    EachPartForDirty(k, dirty, form, v8, source);
    assert plan[at..at + |Part(k, dirty, form, v8, source)|][i - at] == plan[i];
  }

  /** A save with nothing dirty leaves the document as it was. */
  lemma NothingDirtyNothingChanged(form: Form, source: Doc, docs: seq<Doc>)
    requires Run(IsV8Layout(source), source, SaveSteps({}, form, source), docs)
    ensures docs == [source]
  {
    hide SaveSteps, IsV8Layout, StepMeets;
    if |SaveSteps({}, form, source)| > 0 { OnlyForDirty({}, form, source, 0); }
  }

  // ----- Sections the editor does not know -----

  /** A top-level section that holds a place of some field, new or old. */
  predicate KnownSection(key: Key) {
    V8Root(key) || key in {AUTH, CODEX} || PartOf([key]) < PARTS
  }

  lemma PlacesInSections(path: Path, l: Path)
    requires |path| > 0 && l in Locations(path)
    ensures |l| > 0 && (l[0] == path[0] || V8Root(l[0]))
  {
    hide Mappings, BestMapping, Owner, Historical, Canonical, V8Root;
    if Mapped(path) {
      MappedFacts(path, []);
      if l in Historical(path) { HistoricalFacts(path, l); }
    } else {
      UnmappedFacts(path);
    }
  }

  lemma StepSparesSection(v8: bool, source: Doc, before: Doc, after: Doc, step: Step, x: Path)
    requires StepMeets(v8, source, before, after, step) && |x| > 0
    requires step.Tidy? ==> x[0] != AUTH
    requires !step.Tidy? ==> |step.path| > 0 && x[0] != step.path[0] && !V8Root(x[0])
    ensures Get(after, x) == Get(before, x)
  {
    hide Canonical, Historical, Get, EffectOf, KeepsMapAbove, Locations, Copies, Target;
    if step.Tidy? {
      assert KEYS_PROVIDER[0] == PROVIDER_ENTRIES[0] == PROVIDER_KEYS[0] == AUTH;
    } else {
      TargetsAreLocations(v8, step.path);
      forall l | l in Locations(step.path) ensures !Comparable(l, x) && !(x <= l) { PlacesInSections(step.path, l); }
    }
  }

  lemma FormSections(step: Step)
    requires StepOnForm(step) && (step.Set? ==> PartOf(step.path) < PARTS)
    ensures !step.Tidy? ==> |step.path| > 0 && KnownSection(step.path[0])
  {
  }

  /** Whatever is edited, a section the editor does not know survives the save as it is. */
  lemma {:induction false} UnknownSectionsStay(v8: bool, source: Doc, steps: seq<Step>, docs: seq<Doc>, n: nat, x: Path)
    requires Run(v8, source, steps, docs) && n <= |steps| && |x| > 0 && !KnownSection(x[0])
    requires forall i | 0 <= i < |steps| :: !steps[i].Tidy? ==> |steps[i].path| > 0 && KnownSection(steps[i].path[0])
    ensures Get(docs[n], x) == Get(source, x)
  {
    hide StepMeets, Get;
    if n > 0 {
      UnknownSectionsStay(v8, source, steps, docs, n - 1, x);
      StepSparesSection(v8, source, docs[n - 1], docs[n], steps[n - 1], x);
    }
  }

  lemma UnknownSectionsSurvive(dirty: set<Path>, form: Form, source: Doc, docs: seq<Doc>, x: Path)
    requires Run(IsV8Layout(source), source, SaveSteps(dirty, form, source), docs) && |x| > 0 && !KnownSection(x[0])
    ensures Get(docs[|docs| - 1], x) == Get(source, x)
  {
    hide Part, Plan, IsV8Layout, StepMeets, Get, PartOf, StepOnForm, PathsDiffer, Run, KnownSection;
    var v8, steps := IsV8Layout(source), SaveSteps(dirty, form, source);
    var plan := Plan(PARTS, dirty, form, v8, source);
    PlanIsFine(PARTS, dirty, form, v8, source);
    forall i: nat | i < |steps| ensures !steps[i].Tidy? ==> |steps[i].path| > 0 && KnownSection(steps[i].path[0]) {
      var k := MadeAt(plan, i);
      FormSections(plan[k].step);
    }
    RunLength(v8, source, steps, docs);
    UnknownSectionsStay(v8, source, steps, docs, |steps|, x);
  }

  lemma RunLength(v8: bool, source: Doc, steps: seq<Step>, docs: seq<Doc>)
    requires Run(v8, source, steps, docs)
    ensures |docs| == |steps| + 1
  {
    hide StepMeets;
  }
}
