/**
  What the save tidies up: no group of fields that was edited is left an empty
  map, and the old provider of the client keys is gone once they were edited.
 */
module ConfigCleanup {
  import opened YamlTree
  import opened ConfigPaths
  import opened ConfigSave
  import opened ConfigLens
  import opened ConfigForm
  import opened ConfigCompletes

  // ----- A place that later steps leave -----

  lemma {:induction false} PlaceStays(v8: bool, source: Doc, steps: seq<Step>, docs: seq<Doc>, m: nat, n: nat, x: Path)
    requires Run(v8, source, steps, docs) && m <= n <= |steps|
    requires forall k | m <= k < n :: Leaves(v8, steps[k], x)
    ensures Get(docs[n], x) == Get(docs[m], x)
  {
    hide StepMeets, Leaves, Get;
    if m < n {
      PlaceStays(v8, source, steps, docs, m, n - 1, x);
      LeftPlace(v8, source, docs[n - 1], docs[n], steps[n - 1], x);
    }
  }

  /** The entries of the plan behind the i-th leave a section alone. */
  ghost predicate LaterElsewhere(plan: seq<Guarded>, i: nat, key: Key) {
    forall m | i < m < |plan| && !plan[m].step.Tidy? :: |plan[m].step.path| > 0 && plan[m].step.path[0] != key
  }

  lemma LaterSteps(plan: seq<Guarded>, i: nat, n: nat, key: Key) returns (m: nat)
    requires i < |plan| && plan[i].on && LaterElsewhere(plan, i, key) && |Made(plan[..i + 1])| <= n < |Made(plan)|
    ensures i < m < |plan| && Made(plan)[n] == plan[m].step
    ensures !Made(plan)[n].Tidy? ==> |Made(plan)[n].path| > 0 && Made(plan)[n].path[0] != key
  {
    m := MadeAt(plan, n);
    if m <= i {
      MadeGrows(plan, m, i + 1);
      MadeGrows(plan, m + 1, i + 1);
      MadeNext(plan, m);
    }
  }

  // ----- Groups -----

  const SERVER_GROUPS: set<Path> := {[TLS], [REMOTE_MANAGEMENT], [PPROF], [PLUGINS]}
  const HEADER_GROUPS: set<Path> := {[CLAUDE_HEADER_DEFAULTS], [CODEX_HEADER_DEFAULTS]}
  const REQUEST_GROUPS: set<Path> := {[QUOTA_EXCEEDED], [STREAMING], [PAYLOAD]}

  /** The groups that are made and cleared away around their fields. */
  const GROUPS: set<Path> := SERVER_GROUPS + HEADER_GROUPS + REQUEST_GROUPS

  /** The group is cleared at this entry if one of its fields is dirty, and no later entry of the part is in its section. */
  ghost predicate ClearedAt(part: seq<Guarded>, c: nat, group: Path, dirty: set<Path>) {
    && c < |part| && |group| == 1 && part[c].step == Clear(group) && (DirtyIn(dirty, group) ==> part[c].on)
    && LaterElsewhere(part, c, group[0])
  }

  lemma ClearsLast(part: seq<Guarded>, c: nat, group: Path, dirty: set<Path>)
    requires c < |part| && |group| == 1 && part[c] == Guarded(DirtyIn(dirty, group), Clear(group))
    requires LaterElsewhere(part, c, group[0])
    ensures ClearedAt(part, c, group, dirty)
  {
  }

  lemma ServerGroupCleared(dirty: set<Path>, form: Form, v8: bool, source: Doc, group: Path) returns (k: nat, c: nat)
    requires group in SERVER_GROUPS
    ensures k < PARTS && ClearedAt(Part(k, dirty, form, v8, source), c, group, dirty)
  {
    hide Trim, HasField;
    if group == [TLS] {
      k, c := 0, 6;
      ClearsLast(ServerPart(dirty, form), 6, group, dirty);
    } else if group == [REMOTE_MANAGEMENT] {
      k, c := 1, 7;
      ClearsLast(ManagementPart(dirty, form), 7, group, dirty);
    } else if group == [PPROF] {
      k, c := 3, 4;
      ClearsLast(LogsPart(dirty, form), 4, group, dirty);
    } else {
      k, c := 5, 5;
      ClearsLast(PluginsPart(dirty, form), 5, group, dirty);
    }
  }

  lemma HeaderGroupCleared(dirty: set<Path>, form: Form, v8: bool, source: Doc, group: Path) returns (k: nat, c: nat)
    requires group in HEADER_GROUPS
    ensures k < PARTS && ClearedAt(Part(k, dirty, form, v8, source), c, group, dirty)
  {
    hide Trim, HasField;
    if group == [CLAUDE_HEADER_DEFAULTS] {
      k, c := 10, 8;
      ClearsLast(ClaudePart(dirty, form), 8, group, dirty);
    } else {
      k, c := 11, 4;
      ClearsLast(CodexPart(dirty, form), 4, group, dirty);
    }
  }

  lemma RequestGroupCleared(dirty: set<Path>, form: Form, v8: bool, source: Doc, group: Path) returns (k: nat, c: nat)
    requires group in REQUEST_GROUPS
    ensures k < PARTS && ClearedAt(Part(k, dirty, form, v8, source), c, group, dirty)
  {
    hide Trim, HasField;
    if group == [QUOTA_EXCEEDED] {
      k, c := 20, 4;
      ClearsLast(QuotaPart(dirty, form), 4, group, dirty);
    } else if group == [STREAMING] {
      k, c := 22, 3;
      ClearsLast(StreamingPart(dirty, form), 3, group, dirty);
    } else {
      k, c := 23, 6;
      ClearsLast(PayloadPart(dirty, form), 6, group, dirty);
    }
  }

  /** A section whose groups and fields are all in one part. */
  lemma SectionOfPart(step: Step, k: nat, key: Key)
    requires Within(step, k) && !step.Tidy? && |step.path| > 0 && step.path[0] == key && key != CODEX
    ensures PartOf([key]) == k
  {
  }

  /** Behind the clearing of a group no entry of the whole plan is in its section. */
  lemma ClearedLast(dirty: set<Path>, form: Form, v8: bool, source: Doc, group: Path, k: nat, c: nat) returns (i: nat)
    requires k < PARTS && ClearedAt(Part(k, dirty, form, v8, source), c, group, dirty) && group[0] != CODEX && PartOf(group) == k
    requires DirtyIn(dirty, group)
    ensures var plan := Plan(PARTS, dirty, form, v8, source);
      i < |plan| && plan[i].on && plan[i].step == Clear(group) && LaterElsewhere(plan, i, group[0])
  {
    hide Part, Plan, PartOf, DirtyIn, Within;
    var plan, part := Plan(PARTS, dirty, form, v8, source), Part(k, dirty, form, v8, source);
    PartStands(PARTS, k, dirty, form, v8, source);
    var at := |Plan(k, dirty, form, v8, source)|;
    i := at + c;
    assert plan[at..at + |part|][c] == plan[i];
    assert [group[0]] == group;
    forall m | i < m < |plan| && !plan[m].step.Tidy? ensures |plan[m].step.path| > 0 && plan[m].step.path[0] != group[0] {
      var k', at' := EntryOfPart(PARTS, dirty, form, v8, source, m);
      var part' := Part(k', dirty, form, v8, source);
      assert plan[at'..at' + |part'|][m - at'] == plan[m];
      PartIsFine(k', dirty, form, v8, source);
      assert Within(part'[m - at'].step, k');
      StepHasPath(plan[m].step, k');
      if plan[m].step.path[0] == group[0] {
        SectionOfPart(plan[m].step, k', group[0]);
      }
    }
  }

  lemma StepHasPath(step: Step, k: nat)
    requires Within(step, k)
    ensures !step.Tidy? ==> |step.path| > 0
  {
  }

  lemma {:induction false} PartStands(n: nat, k: nat, dirty: set<Path>, form: Form, v8: bool, source: Doc)
    requires k < n
    ensures var at, part := |Plan(k, dirty, form, v8, source)|, Part(k, dirty, form, v8, source);
      at + |part| <= |Plan(n, dirty, form, v8, source)| && Plan(n, dirty, form, v8, source)[at..at + |part|] == part
  {
    hide Part;
    if k < n - 1 { PartStands(n - 1, k, dirty, form, v8, source); }
  }

  /** Where the places of such a group are, and that steps in other sections leave them. */
  lemma OtherSectionLeaves(v8: bool, step: Step, group: Path, x: Path)
    requires group in GROUPS && StepOnForm(step) && (x == Target(v8, group) || x in Copies(v8, group))
    requires !step.Tidy? ==> |step.path| > 0 && step.path[0] != group[0]
    ensures Leaves(v8, step, x)
  {
    hide Mappings, BestMapping, Owner, Canonical, Historical, Regular, Locations, Target, Copies, Leaves, Get;
    TargetsAreLocations(v8, group);
    if group == [QUOTA_EXCEEDED] {
      QuotaGroupStays(v8);
      SectionLeaves(v8, step, x);
    } else {
      GroupIsTold(group);
      ToldRegular(group);
      StepOfForm(step);
      StepLeavesPlace(v8, step, group, x);
    }
  }

  lemma GroupIsTold(group: Path)
    requires group in GROUPS && group != [QUOTA_EXCEEDED]
    ensures Told(group) && !Comparable(KEYS_PROVIDER, group)
  {
  }

  lemma StepOfForm(step: Step)
    requires StepOnForm(step)
    ensures OnForm(step)
  {
    hide Regular, Told, Depth;
    match step
    case Set(path, _) => ToldRegular(path);
    case Make(path) => GroupIsGroup(path);
    case Clear(path) => GroupIsGroup(path);
    case Tidy =>
  }

  /** The group of the quota switches did not move, though one of its fields did. */
  lemma QuotaGroupStays(v8: bool)
    ensures Target(v8, [QUOTA_EXCEEDED]) == [QUOTA_EXCEEDED] && Copies(v8, [QUOTA_EXCEEDED]) == []
  {
    hide Mappings, BestMapping, Owner, Get;
    ShortGroupsUnmapped();
    UnmappedFacts([QUOTA_EXCEEDED]);
  }

  /** A place outside the sections of the V8 layout is left by every step of another section. */
  lemma SectionLeaves(v8: bool, step: Step, x: Path)
    requires |x| > 0 && x[0] != AUTH && !V8Root(x[0]) && (!step.Tidy? ==> |step.path| > 0 && step.path[0] != x[0])
    ensures Leaves(v8, step, x)
  {
    hide Canonical, Historical, Get, Locations, Copies, Target;
    if !step.Tidy? {
      TargetsAreLocations(v8, step.path);
      forall l | l in Locations(step.path) ensures !Comparable(l, x) && !(x <= l) { PlacesInSections(step.path, l); }
    }
  }

  // ----- No empty group is left -----

  /** In a group of which a field was edited, the save leaves no empty map, in any place of the group. */
  lemma EmptyGroupsGo(dirty: set<Path>, form: Form, source: Doc, docs: seq<Doc>, group: Path)
    requires Run(IsV8Layout(source), source, SaveSteps(dirty, form, source), docs)
    requires group in GROUPS && exists p | p in dirty :: group < p
    ensures NoneEmpty(IsV8Layout(source), docs[|docs| - 1], group)
  {
    hide Part, Plan, IsV8Layout, StepMeets, Get, PartOf, StepOnForm, PathsDiffer, ClearedAt, Leaves, Target, Copies;
    var v8, steps := IsV8Layout(source), SaveSteps(dirty, form, source);
    var plan := Plan(PARTS, dirty, form, v8, source);
    var k, c;
    if group in SERVER_GROUPS {
      k, c := ServerGroupCleared(dirty, form, v8, source, group);
    } else if group in HEADER_GROUPS {
      k, c := HeaderGroupCleared(dirty, form, v8, source, group);
    } else {
      k, c := RequestGroupCleared(dirty, form, v8, source, group);
    }
    GroupSection(group, k, c, dirty, form, v8, source);
    var i := ClearedLast(dirty, form, v8, source, group, k, c);
    MadeNext(plan, i);
    var m := |Made(plan[..i + 1])|;
    MadeGrows(plan, i + 1, |plan|);
    assert plan[..|plan|] == plan;
    assert steps[m - 1] == Clear(group);
    ClearedNow(v8, source, docs[m - 1], docs[m], group);
    PlanIsFine(PARTS, dirty, form, v8, source);
    forall x | x == Target(v8, group) || x in Copies(v8, group) ensures Get(docs[|steps|], x) == Get(docs[m], x) {
      forall n: nat | m <= n < |steps| ensures Leaves(v8, steps[n], x) {
        var at := LaterSteps(plan, i, n, group[0]);
        OtherSectionLeaves(v8, steps[n], group, x);
      }
      PlaceStays(v8, source, steps, docs, m, |steps|, x);
    }
  }

  lemma ClearedNow(v8: bool, source: Doc, before: Doc, after: Doc, group: Path)
    requires StepMeets(v8, source, before, after, Clear(group))
    ensures NoneEmpty(v8, after, group)
  {
    hide GroupMeets, NoneEmpty;
  }

  lemma GroupSection(group: Path, k: nat, c: nat, dirty: set<Path>, form: Form, v8: bool, source: Doc)
    requires group in GROUPS && k < PARTS && ClearedAt(Part(k, dirty, form, v8, source), c, group, dirty)
    ensures |group| == 1 && group[0] != CODEX && PartOf(group) == k
  {
    hide Part, LaterElsewhere, DirtyIn;
    PartIsFine(k, dirty, form, v8, source);
    assert Within(Part(k, dirty, form, v8, source)[c].step, k);
  }

  // ----- The old provider of the client keys -----

  /** Once the client keys were edited, the lists of their old provider are gone. */
  lemma OldProviderGoes(dirty: set<Path>, form: Form, source: Doc, docs: seq<Doc>)
    requires Run(IsV8Layout(source), source, SaveSteps(dirty, form, source), docs) && [API_KEYS] in dirty
    ensures !Has(docs[|docs| - 1], [AUTH, PROVIDERS, CONFIG_API_KEY, API_KEY_ENTRIES])
    ensures !Has(docs[|docs| - 1], [AUTH, PROVIDERS, CONFIG_API_KEY, API_KEYS])
  {
    hide Part, Plan, IsV8Layout, StepMeets, Get, PartOf, StepOnForm, PathsDiffer, Leaves;
    var v8, steps := IsV8Layout(source), SaveSteps(dirty, form, source);
    var plan := Plan(PARTS, dirty, form, v8, source);
    var i := TidiedLast(dirty, form, v8, source);
    MadeNext(plan, i);
    var m := |Made(plan[..i + 1])|;
    MadeGrows(plan, i + 1, |plan|);
    assert plan[..|plan|] == plan;
    assert steps[m - 1] == Tidy;
    TidiedNow(v8, source, docs[m - 1], docs[m]);
    AuthStays(v8, source, plan, i, docs, PROVIDER_ENTRIES);
    AuthStays(v8, source, plan, i, docs, PROVIDER_KEYS);
  }

  lemma AuthStays(v8: bool, source: Doc, plan: seq<Guarded>, i: nat, docs: seq<Doc>, x: Path)
    requires Run(v8, source, Made(plan), docs) && i < |plan| && |Made(plan[..i + 1])| <= |Made(plan)| && |x| > 0 && x[0] == AUTH
    requires forall m | i < m < |plan| :: !plan[m].step.Tidy? && |plan[m].step.path| > 0 && plan[m].step.path[0] != AUTH
    ensures Get(docs[|Made(plan)|], x) == Get(docs[|Made(plan[..i + 1])|], x)
  {
    hide StepMeets, Get, Leaves;
    var m := |Made(plan[..i + 1])|;
    forall n: nat | m <= n < |Made(plan)| ensures Leaves(v8, Made(plan)[n], x) {
      var at := MadeAt(plan, n);
      if at <= i {
        MadeGrows(plan, at + 1, i + 1);
        MadeNext(plan, at);
      }
      AuthLeft(v8, Made(plan)[n], x);
    }
    PlaceStays(v8, source, Made(plan), docs, m, |Made(plan)|, x);
  }

  lemma TidiedNow(v8: bool, source: Doc, before: Doc, after: Doc)
    requires StepMeets(v8, source, before, after, Tidy)
    ensures !Has(after, PROVIDER_ENTRIES) && !Has(after, PROVIDER_KEYS)
  {
  }

  /** The tidying, behind which every step is in another section. */
  lemma TidiedLast(dirty: set<Path>, form: Form, v8: bool, source: Doc) returns (i: nat)
    requires [API_KEYS] in dirty
    ensures var plan := Plan(PARTS, dirty, form, v8, source);
      && i < |plan| && plan[i].on && plan[i].step == Tidy
      && forall m | i < m < |plan| :: !plan[m].step.Tidy? && |plan[m].step.path| > 0 && plan[m].step.path[0] != AUTH
  {
    hide Part, Plan, PartOf, Within;
    var plan := Plan(PARTS, dirty, form, v8, source);
    PartStands(PARTS, 2, dirty, form, v8, source);
    var at := |Plan(2, dirty, form, v8, source)|;
    TidyInKeys(dirty, form, v8, source);
    i := at + 4;
    assert plan[at..at + |Part(2, dirty, form, v8, source)|][4] == plan[i];
    forall m | i < m < |plan| ensures !plan[m].step.Tidy? && |plan[m].step.path| > 0 && plan[m].step.path[0] != AUTH {
      var k', at' := EntryOfPart(PARTS, dirty, form, v8, source, m);
      var part' := Part(k', dirty, form, v8, source);
      assert plan[at'..at' + |part'|][m - at'] == plan[m];
      NoTidyElsewhere(k', m - at', dirty, form, v8, source);
    }
  }

  lemma TidyInKeys(dirty: set<Path>, form: Form, v8: bool, source: Doc)
    requires [API_KEYS] in dirty
    ensures var part := Part(2, dirty, form, v8, source); |part| == 5 && part[4] == Guarded(true, Tidy)
  {
    hide HasField;
  }

  /** Outside its last entry in the part of the keys the save writes in other sections than the one it tidies. */
  lemma NoTidyElsewhere(k: nat, j: nat, dirty: set<Path>, form: Form, v8: bool, source: Doc)
    requires k < PARTS && j < |Part(k, dirty, form, v8, source)| && !(k == 2 && j >= 4)
    ensures var step := Part(k, dirty, form, v8, source)[j].step; !step.Tidy? && |step.path| > 0 && step.path[0] != AUTH
  {
    PartIsFine(k, dirty, form, v8, source);
    KeysTidyLast(dirty, form, v8, source);
    hide Part;
    assert Within(Part(k, dirty, form, v8, source)[j].step, k);
    NotInAuth(Part(k, dirty, form, v8, source)[j].step, k);
  }

  lemma KeysTidyLast(dirty: set<Path>, form: Form, v8: bool, source: Doc)
    ensures forall j | 0 <= j < |Part(2, dirty, form, v8, source)| && j < 4 :: !Part(2, dirty, form, v8, source)[j].step.Tidy?
  {
    hide HasField;
  }

  lemma NotInAuth(step: Step, k: nat)
    requires Within(step, k) && k < PARTS && !step.Tidy?
    ensures |step.path| > 0 && step.path[0] != AUTH
  {
  }

  lemma AuthLeft(v8: bool, step: Step, x: Path)
    requires !step.Tidy? && |step.path| > 0 && step.path[0] != AUTH && |x| > 0 && x[0] == AUTH
    ensures Leaves(v8, step, x)
  {
    hide Canonical, Historical, Get, Locations, Copies, Target;
    TargetsAreLocations(v8, step.path);
    forall l | l in Locations(step.path) ensures !Comparable(l, x) && !(x <= l) { PlacesInSections(step.path, l); }
  }
}
