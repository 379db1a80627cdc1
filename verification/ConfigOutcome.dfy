/**
  What the form shows after a save: for each kind of field the exact condition
  under which it shows as it was set, and documents where it does not.
 */
module ConfigOutcome {
  import opened YamlTree
  import opened ConfigPaths
  import opened ConfigSave
  import opened ConfigLens
  import opened ConfigForm
  import opened ConfigCompletes
  import opened Decimals

  // ----- The whole save -----

  /**
    The save as a whole. After it each field of the form reads as its own edit
    says, and as before if the save does not write it; where neither gives a
    value, as its other names do after the same save.
   */
  lemma FormAfterSave(dirty: set<Path>, form: Form, source: Doc, docs: seq<Doc>, field: Path, names: seq<Path>)
    requires Run(IsV8Layout(source), source, SaveSteps(dirty, form, source), docs)
    requires forall p | p in [field] + names :: FormField(p)
    ensures Read(docs[|docs| - 1], field, names) == FieldAfter(IsV8Layout(source), source, SaveSteps(dirty, form, source), field, names)
  {
    hide FormPath, FormSave, FieldOf, Regular, SaveSteps, IsV8Layout, Read, FieldAfter, StepMeets;
    SaveIsFormSave(dirty, form, source);
    assert field in [field] + names;
    SaveKnowsField(dirty, form, source, field);
    forall a | a in names ensures Regular(a) && FieldOf(SaveSteps(dirty, form, source), a) {
      assert a in [field] + names;
      SaveKnowsField(dirty, form, source, a);
    }
    FieldAfterSave(source, SaveSteps(dirty, form, source), docs, field, names);
  }

  lemma {:induction false} UnplannedEdit(plan: seq<Guarded>, path: Path)
    requires forall i | 0 <= i < |plan| && plan[i].step.Set? && plan[i].on :: plan[i].step.path != path
    ensures EditOf(Made(plan), path) == None
  {
    if |plan| > 0 {
      var n := |plan| - 1;
      UnplannedEdit(plan[..n], path);
      if plan[n].on { assert Made(plan)[..|Made(plan)| - 1] == Made(plan[..n]); }
    }
  }

  /** A write of a plan decides what becomes of its field: the edit when it is made, none when it is not. */
  lemma {:induction false} PlannedEdit(plan: seq<Guarded>, i: nat)
    requires PathsDiffer(plan) && i < |plan| && plan[i].step.Set?
    ensures EditOf(Made(plan), plan[i].step.path) == if plan[i].on then Some(plan[i].step.edit) else None
  {
    var n := |plan| - 1;
    if i == n {
      UnplannedEdit(plan[..n], plan[i].step.path);
      if plan[n].on { assert Made(plan)[..|Made(plan)| - 1] == Made(plan[..n]); }
    } else {
      assert plan[..n][i] == plan[i];
      PlannedEdit(plan[..n], i);
      if plan[n].on { assert Made(plan)[..|Made(plan)| - 1] == Made(plan[..n]); }
    }
  }

  lemma {:induction false} PartInPlan(n: nat, k: nat, dirty: set<Path>, form: Form, v8: bool, source: Doc, g: Guarded)
    requires k < n && g in Part(k, dirty, form, v8, source)
    ensures g in Plan(n, dirty, form, v8, source)
  {
    hide Part;
    if k < n - 1 { PartInPlan(n - 1, k, dirty, form, v8, source, g); }
  }

  /** The edit of a field that the save plans in one of its parts. */
  lemma SavedEdit(dirty: set<Path>, form: Form, source: Doc, k: nat, g: Guarded)
    requires k < PARTS && g in Part(k, dirty, form, IsV8Layout(source), source) && g.step.Set?
    ensures EditOf(SaveSteps(dirty, form, source), g.step.path) == if g.on then Some(g.step.edit) else None
    ensures FormField(g.step.path)
  {
    hide Part, Plan, Made, EditOf, PathsDiffer, IsV8Layout, FormPath, FormGroup, PartOf;
    var v8 := IsV8Layout(source);
    var plan := Plan(PARTS, dirty, form, v8, source);
    PlanIsFine(PARTS, dirty, form, v8, source);
    PartInPlan(PARTS, k, dirty, form, v8, source, g);
    var i :| 0 <= i < |plan| && plan[i] == g;
    PlannedEdit(plan, i);
    PartOfAuth(g.step.path);
  }

  lemma PartOfAuth(p: Path)
    requires FormPath(p) && PartOf(p) < PARTS
    ensures p[0] != AUTH
  {
  }

  /** Where the document read has no value at any place of the field, its places show none. */
  lemma NothingThere(source: Doc, field: Path)
    ensures !HasField(IsV8Layout(source), source, source, field) ==> FirstFound(source, Locations(field)) == None
  {
    hide IsV8Layout, Locations, Get, HasField;
    if !HasField(IsV8Layout(source), source, source, field) {
      LegacySource(source, source, field);
      AbsentField(IsV8Layout(source), source, source, field, []);
      NoNames(source, field);
    }
  }

  /** A dirty switch shows as it was set after the save, unless it was turned off where it was nowhere and another name still says on. */
  lemma SavedSwitch(dirty: set<Path>, form: Form, source: Doc, docs: seq<Doc>, k: nat, field: Path, names: seq<Path>)
    requires Run(IsV8Layout(source), source, SaveSteps(dirty, form, source), docs)
    requires k < PARTS && field in dirty && SwitchField(dirty, form, field) in Part(k, dirty, form, IsV8Layout(source), source)
    requires forall a | a in names :: FormField(a)
    ensures Truthy(Read(docs[|docs| - 1], field, names)) == form.flag(field)
      <==> form.flag(field) || Moved(IsV8Layout(source), field) || HasField(IsV8Layout(source), source, source, field)
           || !Truthy(NamesAfter(IsV8Layout(source), source, SaveSteps(dirty, form, source), names))
  {
    hide Part, SaveSteps, IsV8Layout, HasField, NamesAfter, FormPath, Read, Moved, FirstFound, Locations, EditOf, Run;
    SavedEdit(dirty, form, source, k, SwitchField(dirty, form, field));
    FormAfterSave(dirty, form, source, docs, field, names);
    NothingThere(source, field);
  }

  /** A dirty text shows as typed after the save, unless it is blank and not empty, or the field was nowhere and another name or the fallback says otherwise. */
  lemma SavedText(dirty: set<Path>, form: Form, source: Doc, docs: seq<Doc>, k: nat, field: Path, names: seq<Path>, fallback: string)
    requires Run(IsV8Layout(source), source, SaveSteps(dirty, form, source), docs)
    requires k < PARTS && field in dirty && TextField(dirty, form, field) in Part(k, dirty, form, IsV8Layout(source), source)
    requires forall a | a in names :: FormField(a)
    ensures FormText(Read(docs[|docs| - 1], field, names), fallback) == form.text(field)
      <==> if Trim(form.text(field)) != "" then true
           else if HasField(IsV8Layout(source), source, source, field) then form.text(field) == "" || Moved(IsV8Layout(source), field)
           else FormText(NamesAfter(IsV8Layout(source), source, SaveSteps(dirty, form, source), names), fallback) == form.text(field)
  {
    hide Part, SaveSteps, IsV8Layout, HasField, NamesAfter, FormPath, Read, Moved, FirstFound, Locations, EditOf, Run, Trim;
    SavedEdit(dirty, form, source, k, TextField(dirty, form, field));
    FormAfterSave(dirty, form, source, docs, field, names);
    NothingThere(source, field);
  }

  /** A dirty number shows as typed after the save under the condition of NumberRoundTrip, with the other names as the save leaves them. */
  lemma SavedNumber(dirty: set<Path>, form: Form, source: Doc, docs: seq<Doc>, k: nat, field: Path, names: seq<Path>,
                    fallback: string, positive: bool, other: Doc -> string)
    requires Run(IsV8Layout(source), source, SaveSteps(dirty, form, source), docs)
    requires k < PARTS && field in dirty && NumberField(dirty, form, field) in Part(k, dirty, form, IsV8Layout(source), source)
    requires forall a | a in names :: FormField(a)
    ensures var s := form.text(field);
      var rest := NamesAfter(IsV8Layout(source), source, SaveSteps(dirty, form, source), names);
      var own := FirstFound(source, Locations(field));
      FormNumber(Read(docs[|docs| - 1], field, names), fallback, positive, other) == s
      <==> if Trim(s) == "" then FormNumber(rest, fallback, positive, other) == s
           else if Numeral(Trim(s)) then
             if positive && Integer(Trim(s)) <= 0 then s == fallback else Numeral(s) && PlainNumeral(s)
           else FormNumber(if own.Some? then own else rest, fallback, positive, other) == s
  {
    hide Part, SaveSteps, IsV8Layout, HasField, NamesAfter, FormPath, Read, FirstFound, Locations, EditOf, Run, Trim, Show, PlainNumeral, Numeral, Integer;
    SavedEdit(dirty, form, source, k, NumberField(dirty, form, field));
    FormAfterSave(dirty, form, source, docs, field, names);
    if Trim(form.text(field)) != "" && Numeral(Trim(form.text(field))) { NumeralTrimmed(form.text(field)); }
  }

  /** What the save writes as a value (flags that are always written, lists, rules, the secret key) reads back as that value. */
  lemma SavedValue(dirty: set<Path>, form: Form, source: Doc, docs: seq<Doc>, k: nat, g: Guarded, names: seq<Path>)
    requires Run(IsV8Layout(source), source, SaveSteps(dirty, form, source), docs)
    requires k < PARTS && g in Part(k, dirty, form, IsV8Layout(source), source) && g.on && g.step.Set? && g.step.edit.Value?
    requires forall a | a in names :: FormField(a)
    ensures Read(docs[|docs| - 1], g.step.path, names) == Some(g.step.edit.value)
  {
    hide Part, SaveSteps, IsV8Layout, HasField, NamesAfter, FormPath, Read, FirstFound, Locations, EditOf, Run;
    SavedEdit(dirty, form, source, k, g);
    FormAfterSave(dirty, form, source, docs, g.step.path, names);
  }

  /** The mode of image generation reads back as it was chosen; off is not written where there was nothing, and then nothing is read. */
  lemma SavedMode(dirty: set<Path>, form: Form, source: Doc, docs: seq<Doc>)
    requires Run(IsV8Layout(source), source, SaveSteps(dirty, form, source), docs) && [DISABLE_IMAGE_GENERATION] in dirty
    ensures var mode := ImageMode(form.text([DISABLE_IMAGE_GENERATION]));
      var after := Read(docs[|docs| - 1], [DISABLE_IMAGE_GENERATION], []);
      after == Some(Leaf(mode)) || (after == None && mode == Bool(false))
  {
    hide SaveSteps, IsV8Layout, HasField, NamesAfter, FormPath, Read, FirstFound, Locations, EditOf, Run, ImageMode, Moved;
    var field, mode := [DISABLE_IMAGE_GENERATION], ImageMode(form.text([DISABLE_IMAGE_GENERATION]));
    var g := Guarded(field in dirty, Set(field, Mode(mode)));
    assert g == MediaPart(dirty, form)[0];
    SavedEdit(dirty, form, source, 8, g);
    FormAfterSave(dirty, form, source, docs, field, []);
    NothingThere(source, field);
    assert NamesAfter(IsV8Layout(source), source, SaveSteps(dirty, form, source), []) == None by { NoNamesAfter(source, SaveSteps(dirty, form, source)); }
  }

  lemma NoNamesAfter(source: Doc, steps: seq<Step>)
    ensures NamesAfter(IsV8Layout(source), source, steps, []) == None
  {
  }

  /**
    The panel repository, which the save writes under its new name and deletes
    under its old one: it shows as typed unless it is blank, not empty, and
    either was nowhere under the new name or is written in the legacy layout.
   */
  lemma SavedPanelRepository(dirty: set<Path>, form: Form, source: Doc, docs: seq<Doc>)
    requires Run(IsV8Layout(source), source, SaveSteps(dirty, form, source), docs) && PANEL_FIELD in dirty
    ensures FormText(Read(docs[|docs| - 1], PANEL_FIELD, [PANEL_ALIAS]), "") == form.text(PANEL_FIELD)
      <==> Trim(form.text(PANEL_FIELD)) != "" || form.text(PANEL_FIELD) == ""
           || (Moved(IsV8Layout(source), PANEL_FIELD) && HasField(IsV8Layout(source), source, source, PANEL_FIELD))
  {
    hide SaveSteps, IsV8Layout, HasField, FormPath, Read, Moved, Locations, EditOf, Run, Trim;
    var v8 := IsV8Layout(source);
    var deletion := Guarded(PANEL_FIELD in dirty, Set(PANEL_ALIAS, Discard));
    assert deletion == ManagementPart(dirty, form)[6] && TextField(dirty, form, PANEL_FIELD) == ManagementPart(dirty, form)[5];
    SavedEdit(dirty, form, source, 1, deletion);
    assert NamesAfter(v8, source, SaveSteps(dirty, form, source), [PANEL_ALIAS]) == None;
    SavedText(dirty, form, source, docs, 1, PANEL_FIELD, [PANEL_ALIAS], "");
  }

  /** Every field of the form, with any other names, reads as its edit says. */
  ghost predicate ReadsAsEdited(dirty: set<Path>, form: Form, source: Doc, doc: Doc) {
    forall field: Path, names: seq<Path> | forall p | p in [field] + names :: FormField(p) ::
      Read(doc, field, names) == FieldAfter(IsV8Layout(source), source, SaveSteps(dirty, form, source), field, names)
  }

  lemma AllAfterSave(dirty: set<Path>, form: Form, source: Doc, docs: seq<Doc>)
    requires Run(IsV8Layout(source), source, SaveSteps(dirty, form, source), docs)
    ensures ReadsAsEdited(dirty, form, source, docs[|docs| - 1])
  {
    hide FormField, SaveSteps, IsV8Layout, Read, FieldAfter, StepMeets;
    forall field: Path, names: seq<Path> | forall p | p in [field] + names :: FormField(p)
      ensures Read(docs[|docs| - 1], field, names) == FieldAfter(IsV8Layout(source), source, SaveSteps(dirty, form, source), field, names)
    {
      FormAfterSave(dirty, form, source, docs, field, names);
    }
  }

  /** The save, which always goes through. */
  method ApplyVisualChanges(dirty: set<Path>, form: Form, source: Doc) returns (ok: bool, doc: Doc, ghost docs: seq<Doc>)
    requires source.Map?
    ensures ok && Run(IsV8Layout(source), source, SaveSteps(dirty, form, source), docs) && doc == docs[|docs| - 1]
    ensures ReadsAsEdited(dirty, form, source, doc)
    ensures dirty == {} ==> doc == source
    ensures forall x: Path | |x| > 0 && !KnownSection(x[0]) :: Get(doc, x) == Get(source, x)
  {
    hide SaveSteps, StepMeets, IsV8Layout, Throws, Get, KnownSection;
    var save := new Save(IsV8Layout(source), source);
    StepsHavePaths(dirty, form, source);
    ok, docs := save.Perform(SaveSteps(dirty, form, source));
    if !ok {
      NothingThrows(dirty, form, source, docs, |docs| - 1);
    }
    doc := save.doc;
    AllAfterSave(dirty, form, source, docs);
    if dirty == {} { NothingDirtyNothingChanged(form, source, docs); }
    forall x: Path | |x| > 0 && !KnownSection(x[0]) ensures Get(doc, x) == Get(source, x) {
      UnknownSectionsSurvive(dirty, form, source, docs, x);
    }
  }

  lemma StepsHavePaths(dirty: set<Path>, form: Form, source: Doc)
    ensures forall s | s in SaveSteps(dirty, form, source) :: s.Tidy? || |s.path| > 0
  {
    hide Plan, IsV8Layout, Made, PartOf, PathsDiffer, Depth;
    var plan := Plan(PARTS, dirty, form, IsV8Layout(source), source);
    PlanIsFine(PARTS, dirty, form, IsV8Layout(source), source);
    forall s | s in Made(plan) ensures s.Tidy? || |s.path| > 0 {
      var k :| 0 <= k < |Made(plan)| && Made(plan)[k] == s;
      MadeFromPlan(plan, k);
    }
  }

  // ----- Documents where a field does not show as it was set -----

  const STATISTICS: Path := [USAGE_STATISTICS_ENABLED]
  const STATISTICS_CAMEL: Path := [USAGE_STATISTICS_ENABLED_CAMEL]
  const AFFINITY: Path := [ROUTING, SESSION_AFFINITY]
  const AFFINITY_CAMEL: Path := [ROUTING, SESSION_AFFINITY_CAMEL]
  const RETENTION: Path := [REDIS_USAGE_QUEUE_RETENTION_SECONDS]
  const RETENTION_CAMEL: Path := [REDIS_USAGE_QUEUE_RETENTION_SECONDS_CAMEL]

  /** A document with one entry, and in the V8 layout an empty map besides that tells its layout. */
  function OneEntry(v8: bool, key: Key, value: Doc): Doc {
    Map(if v8 then map[ACCESS := Empty<Key>()][key := value] else map[key := value])
  }

  lemma OneEntryGets(v8: bool, key: Key, value: Doc, p: Path)
    requires |p| > 0 && key != ACCESS
    ensures p[0] == key ==> Get(OneEntry(v8, key, value), p) == Get(value, p[1..])
    ensures p[0] !in {key, ACCESS} ==> Get(OneEntry(v8, key, value), p) == None
    ensures Has(OneEntry(v8, key, value), [ACCESS]) == v8
  {
    var doc, p := OneEntry(v8, key, value), [ACCESS];
    assert ACCESS in doc.entries <==> v8;
    if v8 { assert Get(doc, p) == Get(Empty<Key>(), p[1..]) == Some(Empty()); }
  }

  lemma OneEntryLayout(v8: bool, key: Key, value: Doc)
    requires (Other(key) && key !in {ACCESS, CREDENTIALS, CLIENT, API_KEYS}) || (key == ROUTING && !Has(value, [FORCE_MODEL_PREFIX])
      && !Has(value, [RETRY]) && !Has(value, [COOLDOWN]))
    ensures IsV8Layout(OneEntry(v8, key, value)) == v8
  {
    hide Get;
    forall p: Path | |p| > 0 && p[0] !in {key, ACCESS} ensures !Has(OneEntry(v8, key, value), p) {
      OneEntryGets(v8, key, value, p);
    }
    forall k: Key ensures Get(OneEntry(v8, key, value), [key, k]) == Get(value, [k]) {
      OneEntryGets(v8, key, value, [key, k]);
    }
    OneEntryGets(v8, key, value, [ACCESS]);
  }

  /** No place of a field that moves is in such a document. */
  lemma NowhereInOneEntry(v8: bool, key: Key, value: Doc, field: Path, names: seq<Path>)
    requires Other(key) && key != ACCESS && Mapped(field) && |field| > 0 && field[0] !in {key, ACCESS}
    ensures forall l | l in Locations(field) :: !Has(OneEntry(v8, key, value), l)
    ensures Read(OneEntry(v8, key, value), field, names) == FirstFound(OneEntry(v8, key, value), names)
  {
    hide Mappings, BestMapping, Owner, Canonical, Historical, Get;
    var doc := OneEntry(v8, key, value);
    MappedFacts(field, []);
    forall l | l in Locations(field) ensures !Has(doc, l) {
      if l in Historical(field) { HistoricalFacts(field, l); }
      assert l[0] == field[0] || V8Root(l[0]);
      OneEntryGets(v8, key, value, l);
    }
    NothingFound(doc, Locations(field));
    FirstFoundSplit(doc, Locations(field), names);
  }

  lemma TopFieldsMapped()
    ensures Mapped(STATISTICS) && Mapped(RETENTION)
  {
    hide BestMapping, Owner;
    BestMappingIsLongest(Mappings(), STATISTICS);
    BestMappingIsLongest(Mappings(), RETENTION);
    assert Rows4()[6] in Mappings() && Rows4()[7] in Mappings();
  }

  /** Usage statistics, on under the camelCase name in the legacy layout, stay on when they are turned off: the save writes nothing. */
  lemma StatisticsStayOn()
    ensures var doc := OneEntry(false, USAGE_STATISTICS_ENABLED_CAMEL, Leaf(Bool(true)));
      && !IsV8Layout(doc)
      && Meets(false, doc, doc, STATISTICS, EffectOf(false, doc, doc, STATISTICS, Boolean(false)))
      && Truthy(Read(doc, STATISTICS, [STATISTICS_CAMEL]))
  {
    hide Mappings, BestMapping, Owner, Canonical, Historical, IsV8Layout;
    var doc := OneEntry(false, USAGE_STATISTICS_ENABLED_CAMEL, Leaf(Bool(true)));
    OneEntryLayout(false, USAGE_STATISTICS_ENABLED_CAMEL, Leaf(Bool(true)));
    TopFieldsMapped();
    NowhereInOneEntry(false, USAGE_STATISTICS_ENABLED_CAMEL, Leaf(Bool(true)), STATISTICS, [STATISTICS_CAMEL]);
    FirstFoundOne(doc, STATISTICS_CAMEL);
  }

  /** Session affinity did not move, so it stays on in both layouts. */
  lemma AffinityStaysOn(v8: bool)
    ensures var doc := OneEntry(v8, ROUTING, Map(map[SESSION_AFFINITY_CAMEL := Leaf(Bool(true))]));
      && IsV8Layout(doc) == v8
      && Meets(v8, doc, doc, AFFINITY, EffectOf(v8, doc, doc, AFFINITY, Boolean(false)))
      && Truthy(Read(doc, AFFINITY, [AFFINITY_CAMEL]))
  {
    hide Mappings, BestMapping, Owner, Canonical, Historical, IsV8Layout;
    var routing: Doc := Map(map[SESSION_AFFINITY_CAMEL := Leaf(Bool(true))]);
    var doc := OneEntry(v8, ROUTING, routing);
    OneEntryLayout(v8, ROUTING, routing);
    FormFieldsRegular(AFFINITY);
    UnmappedFacts(AFFINITY);
    OneEntryGets(v8, ROUTING, routing, AFFINITY);
    OneEntryGets(v8, ROUTING, routing, AFFINITY_CAMEL);
    assert Locations(AFFINITY) == [AFFINITY];
    FirstFoundSplit(doc, [AFFINITY], [AFFINITY_CAMEL]);
    FirstFoundOne(doc, AFFINITY);
    FirstFoundOne(doc, AFFINITY_CAMEL);
  }

  /** A retention under the camelCase name comes back after it is cleared, in both layouts: it is deleted only under its own name. */
  lemma ClearedRetentionComesBack(v8: bool, n: int, other: Doc -> string)
    ensures var doc := OneEntry(v8, REDIS_USAGE_QUEUE_RETENTION_SECONDS_CAMEL, Leaf(Number(n)));
      && IsV8Layout(doc) == v8
      && Meets(v8, doc, doc, RETENTION, EffectOf(v8, doc, doc, RETENTION, Whole("")))
      && FormNumber(Read(doc, RETENTION, [RETENTION_CAMEL]), "", false, other) == Show(n) != ""
  {
    hide Mappings, BestMapping, Owner, Canonical, Historical, IsV8Layout;
    var doc := OneEntry(v8, REDIS_USAGE_QUEUE_RETENTION_SECONDS_CAMEL, Leaf(Number(n)));
    OneEntryLayout(v8, REDIS_USAGE_QUEUE_RETENTION_SECONDS_CAMEL, Leaf(Number(n)));
    TopFieldsMapped();
    NowhereInOneEntry(v8, REDIS_USAGE_QUEUE_RETENTION_SECONDS_CAMEL, Leaf(Number(n)), RETENTION, [RETENTION_CAMEL]);
    FirstFoundOne(doc, RETENTION_CAMEL);
    TargetsAreLocations(v8, RETENTION);
    ShowIsPlain(n);
  }

  /** In an empty document a single blank is not written, and neither is the empty text for an address that falls back on another: both show otherwise. */
  lemma BlankTextIsLost(field: Path)
    requires |field| > 0
    ensures var doc: Doc := Empty();
      && Meets(false, doc, doc, field, EffectOf(false, doc, doc, field, Str(" ")))
      && Meets(false, doc, doc, field, EffectOf(false, doc, doc, field, Str("")))
      && FormText(Read(doc, field, []), "") != " "
      && FormText(Read(doc, field, []), "127.0.0.1:8316") != ""
  {
    hide Mappings, BestMapping, Owner, Canonical, Historical;
    var doc: Doc := Empty();
    forall l | l in Locations(field) ensures !Has(doc, l) {
      CanonicalNonempty(field);
      if l in Historical(field) { HistoricalFacts(field, l); }
    }
    assert !Has(doc, field);
    NothingFound(doc, Locations(field));
    NoNames(doc, field);
  }

  /** A zero in front is lost: 07 shows as 7. */
  lemma LeadingZerosAreLost(s: string)
    requires Digits(s) && PlainNumeral(s)
    ensures Numeral("0" + s) && Show(Integer("0" + s)) == s != "0" + s
  {
    hide Decimal, Itoa;
    LeadingZero(s);
    DecimalPrints(s);
  }
}
