/**
  The lens laws of the visual configuration editor: after a save, every form
  field that was edited reads as it was written, and every other one as before.
 */
module ConfigLens {
  import opened YamlTree
  import opened ConfigPaths
  import opened ConfigSave
  import opened Decimals

  // ----- The two layouts -----

  /** isV8VisualConfigLayout. */
  predicate IsV8Layout(parsed: Doc) {
    || Has(parsed, [SERVER]) || Has(parsed, [MANAGEMENT]) || Has(parsed, [ACCESS])
    || Has(parsed, [CREDENTIALS]) || Has(parsed, [REQUESTS]) || Has(parsed, [OAUTH])
    || Has(parsed, [UPSTREAM]) || Has(parsed, [MULTIMEDIA]) || Has(parsed, [OBSERVABILITY])
    || IsMap(parsed, [API_KEYS])
    || Has(parsed, [CLIENT, CODEX, OPTIMIZE_MULTI_AGENT_V2])
    || Has(parsed, [PROVIDERS, CODEX, OPTIMIZE_MULTI_AGENT_V2])
    || Has(parsed, [ROUTING, FORCE_MODEL_PREFIX]) || Has(parsed, [ROUTING, RETRY]) || Has(parsed, [ROUTING, COOLDOWN])
  }

  lemma HasPrefix(doc: Doc, p: Path, q: Path)
    requires p <= q && Has(doc, q)
    ensures Has(doc, p)
  {
    GetPrefix(doc, p, q);
  }

  /** A document in the legacy layout has a field only at its legacy path. */
  lemma LegacyLayoutOnlyLegacyPaths(doc: Doc, path: Path, place: Path)
    requires !IsV8Layout(doc) && place in Locations(path) && place != path
    ensures !Has(doc, place)
  {
    hide Mappings, BestMapping, Owner, Canonical, Historical, Get;
    if !Mapped(path) {
      UnmappedFacts(path);
    } else if Has(doc, place) {
      MappedFacts(path, []);
      if place in Historical(path) {
        HistoricalFacts(path, place);
        assert place[..1] == [OAUTH];
        HasPrefix(doc, [OAUTH], place);
      } else {
        var m := MappingOf(path).value;
        HasPrefix(doc, m.canonical, place);
        var root := m.canonical[0];
        assert m.canonical[..1] == [root];
        HasPrefix(doc, [root], m.canonical);
        if root == ROUTING {
          assert m.canonical[..2] == [ROUTING, m.canonical[1]];
          HasPrefix(doc, [ROUTING, m.canonical[1]], m.canonical);
        }
      }
    }
  }

  // ----- One edit -----

  /** Where the field is looked for but the save does not write, there is nothing. */
  ghost predicate OnlyTargets(v8: bool, doc: Doc, path: Path) {
    v8 || forall l | l in Locations(path) && l != path :: !Has(doc, l)
  }

  /** The other names of a field are looked up only when it is at none of its places; the save leaves them alone. */
  ghost predicate AliasesBeside(v8: bool, path: Path, aliases: seq<Path>) {
    forall a | a in aliases :: Beside(v8, path, a)
  }

  /** What readVisualConfigValue returns after the save of a field. */
  function ReadAfter(effect: Effect, doc: Doc, path: Path, aliases: seq<Path>): Option<Doc> {
    match effect
    case Written(v) => Some(v)
    case Gone => FirstFound(doc, aliases)
    case Kept => Read(doc, path, aliases)
  }

  /** Put-get: a written value is read back, and a deleted field reads what its other names hold. */
  lemma PutGet(v8: bool, before: Doc, after: Doc, path: Path, effect: Effect, aliases: seq<Path>)
    requires Meets(v8, before, after, path, effect)
    requires OnlyTargets(v8, before, path) && AliasesBeside(v8, path, aliases)
    ensures Read(after, path, aliases) == ReadAfter(effect, before, path, aliases)
  {
    hide Mappings, BestMapping, Owner, Canonical, Historical, Get, V8Root;
    FirstFoundSplit(after, Locations(path), aliases);
    FirstFoundSplit(after, [Canonical(path)], Alternatives(path));
    FirstFoundOne(after, Canonical(path));
    SameReads(before, after, aliases);
    if !v8 { LegacyTargets(before, after, path, effect); }
    if effect.Gone? {
      forall l | l in Locations(path) ensures !Has(after, l) {}
      NothingFound(after, Locations(path));
    } else if effect.Written? && !v8 && Canonical(path) != path {
      FirstFoundSplit(after, Historical(path), [path]);
      FirstFoundOne(after, path);
      forall h | h in Historical(path) ensures !Has(after, h) { HistoricalIsPlace(path, h); }
      NothingFound(after, Historical(path));
    }
  }

  lemma HistoricalIsPlace(path: Path, h: Path)
    requires h in Historical(path)
    ensures h in Locations(path) && h != path
  {
    hide Mappings, BestMapping, Owner, V8Root;
    if Mapped(path) {
      MappedFacts(path, []);
      PlacesApart(path, h);
    } else {
      HistoricalMapped(path);
    }
  }

  lemma HistoricalMapped(path: Path)
    requires Historical(path) != []
    ensures Mapped(path)
  {
    hide Mappings, Owner, V8Root;
    BestMappingIsLongest(Mappings(), path);
    HistoricalRows();
  }

  lemma HistoricalRows()
    ensures Mapping([DISABLE_CLAUDE_CLOAK_MODE], [UPSTREAM, CLAUDE, DISABLE_CLAUDE_CLOAK_MODE]) in Mappings()
    ensures Mapping([CLAUDE_HEADER_DEFAULTS], [UPSTREAM, CLAUDE, HEADER_DEFAULTS]) in Mappings()
  {
    assert Rows4()[1] in Mappings() && Rows4()[2] in Mappings();
  }

  /** In the legacy layout the other places of a field stay empty. */
  lemma LegacyTargets(before: Doc, after: Doc, path: Path, effect: Effect)
    requires Meets(false, before, after, path, effect) && OnlyTargets(false, before, path)
    ensures OnlyTargets(false, after, path)
  {
    hide Mappings, BestMapping, Owner, Canonical, Historical, Get, V8Root;
    forall l | l in Locations(path) && l != path ensures !Has(after, l) {
      if Mapped(path) {
        MappedFacts(path, []);
        PlacesApart(path, l);
        assert Beside(false, path, l);
      } else {
        UnmappedFacts(path);
      }
    }
  }

  // ----- What the form shows -----

  /** typeof value === 'string' ? value : fallback. */
  function FormText(v: Option<Doc>, fallback: string): string {
    if v.Some? && v.value.Leaf? && v.value.scalar.Text? then v.value.scalar.s else fallback
  }

  /** Boolean(value). */
  predicate Truthy(v: Option<Doc>) {
    v.Some? && match v.value
      case Map(_) => true
      case Leaf(Bool(b)) => b
      case Leaf(Number(n)) => n != 0
      case Leaf(Text(s)) => s != ""
      case Leaf(List(_)) => true
  }

  /** Nothing but false, zero and the empty text is falsy; a list or a map never is. */
  lemma FalsyValues(v: Option<Doc>)
    ensures Truthy(v) <==> v.Some? && v.value !in {Leaf(Bool(false)), Leaf(Number(0)), Leaf(Text(""))}
  {
  }

  /** String(value ?? fallback); some fields take the fallback for a number that is not positive, too. */
  function FormNumber(v: Option<Doc>, fallback: string, positive: bool, other: Doc -> string): string {
    match v
    case None => fallback
    case Some(Leaf(Number(n))) => if positive && n <= 0 then fallback else Show(n)
    case Some(Leaf(Text(s))) => s
    case Some(Leaf(Bool(b))) => if b then "true" else "false"
    case Some(d) => other(d)
  }

  lemma AbsentField(v8: bool, source: Doc, doc: Doc, path: Path, aliases: seq<Path>)
    requires !HasField(v8, source, doc, path) && OnlyTargets(v8, doc, path)
    ensures Read(doc, path, aliases) == FirstFound(doc, aliases)
  {
    hide Mappings, BestMapping, Canonical, Historical, Get;
    forall l | l in Locations(path) ensures !Has(doc, l) {
      if v8 { assert l == Target(v8, path) || l in Copies(v8, path); } else { assert Target(v8, path) == path; }
    }
    NothingFound(doc, Locations(path));
    FirstFoundSplit(doc, Locations(path), aliases);
  }

  /**
    A text shows again as typed exactly when it is written as it is: it is not
    blank, or is empty, or the field moved; a blank text that is not written at
    all, because the field was nowhere, shows what another name or the
    fallback says.
   */
  lemma TextRoundTrip(v8: bool, source: Doc, before: Doc, after: Doc, path: Path, aliases: seq<Path>, s: string, fallback: string)
    requires Meets(v8, before, after, path, EffectOf(v8, source, before, path, Str(s)))
    requires OnlyTargets(v8, before, path) && AliasesBeside(v8, path, aliases)
    ensures FormText(Read(after, path, aliases), fallback) == s
      <==> if Trim(s) != "" then true
           else if HasField(v8, source, before, path) then s == "" || Moved(v8, path)
           else FormText(FirstFound(before, aliases), fallback) == s
  {
    hide Mappings, BestMapping, Canonical, Historical, Get, Locations, HasField;
    PutGet(v8, before, after, path, EffectOf(v8, source, before, path, Str(s)), aliases);
    if !HasField(v8, source, before, path) { AbsentField(v8, source, before, path, aliases); }
  }

  /**
    A switch shows again as it was set, unless it was turned off where the
    field was nowhere and another name of it says on.
   */
  lemma SwitchRoundTrip(v8: bool, source: Doc, before: Doc, after: Doc, path: Path, aliases: seq<Path>, b: bool)
    requires Meets(v8, before, after, path, EffectOf(v8, source, before, path, Boolean(b)))
    requires OnlyTargets(v8, before, path) && AliasesBeside(v8, path, aliases)
    ensures Truthy(Read(after, path, aliases)) == b
      <==> b || Moved(v8, path) || HasField(v8, source, before, path) || !Truthy(FirstFound(before, aliases))
  {
    hide Mappings, BestMapping, Canonical, Historical, Get, Locations, HasField;
    PutGet(v8, before, after, path, EffectOf(v8, source, before, path, Boolean(b)), aliases);
    if !HasField(v8, source, before, path) { AbsentField(v8, source, before, path, aliases); }
  }

  /**
    A number shows again as typed exactly when it is a numeral in its shortest
    form that the field does not take for unset; when a blank text deletes the
    field and the other names or the fallback say the same; and, since anything
    else is dropped, when the form showed it before.
   */
  lemma NumberRoundTrip(v8: bool, source: Doc, before: Doc, after: Doc, path: Path, aliases: seq<Path>, s: string,
                        fallback: string, positive: bool, other: Doc -> string)
    requires Meets(v8, before, after, path, EffectOf(v8, source, before, path, Whole(s)))
    requires OnlyTargets(v8, before, path) && AliasesBeside(v8, path, aliases)
    ensures FormNumber(Read(after, path, aliases), fallback, positive, other) == s
      <==> if Trim(s) == "" then FormNumber(FirstFound(before, aliases), fallback, positive, other) == s
           else if Numeral(Trim(s)) then
             if positive && Integer(Trim(s)) <= 0 then s == fallback else Numeral(s) && PlainNumeral(s)
           else FormNumber(Read(before, path, aliases), fallback, positive, other) == s
  {
    hide Mappings, BestMapping, Canonical, Historical, Get, Locations, HasField, Trim, Show, PlainNumeral, Numeral, Integer;
    PutGet(v8, before, after, path, EffectOf(v8, source, before, path, Whole(s)), aliases);
    if Trim(s) != "" && Numeral(Trim(s)) { NumeralTrimmed(s); }
  }

  lemma NumeralTrimmed(s: string)
    requires Numeral(Trim(s))
    ensures Show(Integer(Trim(s))) == s <==> Numeral(s) && PlainNumeral(s)
  {
    ShowsAgainExactly(Trim(s));
    if Numeral(s) {
      NumeralHasNoWhite(s);
    } else {
      ShowIsPlain(Integer(Trim(s)));
      assert PlainNumeral(s) ==> Numeral(s);
    }
  }

  lemma NumeralHasNoWhite(s: string)
    requires Numeral(s)
    ensures Trim(s) == s
  {
    assert !White(s[0]) && !White(s[|s| - 1]);
  }

  /** What is set as a value reads back as that value. */
  lemma ValueRoundTrip(v8: bool, source: Doc, before: Doc, after: Doc, path: Path, aliases: seq<Path>, v: Doc)
    requires Meets(v8, before, after, path, EffectOf(v8, source, before, path, Value(v)))
    requires OnlyTargets(v8, before, path) && AliasesBeside(v8, path, aliases)
    ensures Read(after, path, aliases) == Some(v)
  {
    hide Mappings, BestMapping, Canonical, Historical, Get, Locations, HasField;
    PutGet(v8, before, after, path, EffectOf(v8, source, before, path, Value(v)), aliases);
  }

  // ----- Whole saves -----

  /** A step on a place the editor may write at. */
  ghost predicate OnForm(step: Step) {
    match step
    case Set(path, _) => Regular(path)
    case Make(path) => Group(path)
    case Clear(path) => Group(path)
    case Tidy => true
  }

  /** The step does not edit this field, nor one above or below it, nor a group under it. */
  ghost predicate LeavesOut(step: Step, field: Path) {
    match step
    case Set(path, _) => !Comparable(path, field)
    case Make(path) => !(field <= path)
    case Clear(path) => !(field <= path)
    case Tidy => !Comparable(KEYS_PROVIDER, field)
  }

  /** Every field edited at most once, and no field edited that a group of the save lies under. */
  ghost predicate FormSave(steps: seq<Step>) {
    && (forall i | 0 <= i < |steps| :: OnForm(steps[i]))
    && forall i | 0 <= i < |steps| && steps[i].Set? :: Untouched(steps[..i], steps[i].path)
  }

  ghost predicate Untouched(steps: seq<Step>, field: Path) {
    forall i | 0 <= i < |steps| :: LeavesOut(steps[i], field)
  }

  /** The save may edit this field, but touches nothing above or below it. */
  ghost predicate FieldOf(steps: seq<Step>, field: Path) {
    forall i | 0 <= i < |steps| :: (steps[i].Set? && steps[i].path == field) || LeavesOut(steps[i], field)
  }

  function EditOf(steps: seq<Step>, field: Path): Option<Edit> {
    if |steps| == 0 then None
    else
      var last := steps[|steps| - 1];
      if last.Set? && last.path == field then Some(last.edit) else EditOf(steps[..|steps| - 1], field)
  }

  /** No write of the step is at the place, above or below it. */
  ghost predicate Leaves(v8: bool, step: Step, x: Path) {
    match step
    case Set(path, _) => Beside(v8, path, x)
    case Make(path) => OffTheWay(v8, path, x)
    case Clear(path) => OffTheWay(v8, path, x)
    case Tidy => !(x <= KEYS_PROVIDER) && !Comparable(PROVIDER_ENTRIES, x) && !Comparable(PROVIDER_KEYS, x)
  }

  lemma LeftPlace(v8: bool, source: Doc, before: Doc, after: Doc, step: Step, x: Path)
    requires StepMeets(v8, source, before, after, step) && Leaves(v8, step, x)
    ensures Get(after, x) == Get(before, x)
  {
    hide Get, Beside, OffTheWay, EffectOf, NoneEmpty, KeepsMapAbove, IsMap;
  }

  /** A step that leaves a field out leaves all its places. */
  lemma StepLeavesPlace(v8: bool, step: Step, field: Path, place: Path)
    requires Regular(field) && place in Locations(field) && OnForm(step) && LeavesOut(step, field)
    ensures Leaves(v8, step, place)
  {
    hide Mappings, BestMapping, Owner, Canonical, Historical, Get, Regular, Group, Locations, Target, Copies;
    if step.Tidy? {
      TidySpares(field, place);
      return;
    }
    var p := step.path;
    TargetsAreLocations(v8, p);
    if step.Set? { FieldsApart(p, field); } else { GroupSpares(p, field); }
  }

  lemma StepSpares(v8: bool, source: Doc, before: Doc, after: Doc, step: Step, field: Path, place: Path)
    requires StepMeets(v8, source, before, after, step) && Regular(field) && place in Locations(field)
    requires OnForm(step) && LeavesOut(step, field)
    ensures Get(after, place) == Get(before, place)
  {
    hide StepMeets, Leaves, Regular, Locations, OnForm, LeavesOut, Get;
    StepLeavesPlace(v8, step, field, place);
    LeftPlace(v8, source, before, after, step, place);
  }

  /** The old provider of the client keys lies beside every field of the form. */
  lemma TidySpares(field: Path, place: Path)
    requires Regular(field) && place in Locations(field) && !Comparable(KEYS_PROVIDER, field)
    ensures !(place <= KEYS_PROVIDER) && !Comparable(PROVIDER_ENTRIES, place) && !Comparable(PROVIDER_KEYS, place)
  {
    hide Mappings, BestMapping, Owner, Canonical, Historical, Regular, Locations;
    FormFieldsRegular(KEYS_PROVIDER);
    FieldsApart(KEYS_PROVIDER, field);
    AliasPlace(KEYS_PROVIDER);
    assert !Comparable(KEYS_PROVIDER, place);
    assert KEYS_PROVIDER <= PROVIDER_ENTRIES && KEYS_PROVIDER <= PROVIDER_KEYS;
    BelowApart(KEYS_PROVIDER, PROVIDER_ENTRIES, place);
    BelowApart(KEYS_PROVIDER, PROVIDER_KEYS, place);
  }

  lemma BelowApart(p: Path, below: Path, q: Path)
    requires p <= below && !Comparable(p, q)
    ensures !Comparable(below, q)
  {
    ExtensionsPart(p, q, below, q);
  }

  lemma TargetsAreLocations(v8: bool, path: Path)
    ensures Target(v8, path) in Locations(path)
    ensures forall c | c in Copies(v8, path) :: c in Locations(path)
  {
    hide Mappings, BestMapping, Owner, Historical, V8Root;
    if Mapped(path) { MappedFacts(path, []); } else { UnmappedFacts(path); }
  }

  /** Get-get: what a save does not touch stays in all its places. */
  lemma {:induction false} UntouchedFieldKeeps(v8: bool, source: Doc, steps: seq<Step>, docs: seq<Doc>, field: Path, place: Path)
    requires Run(v8, source, steps, docs) && FormSave(steps) && Untouched(steps, field)
    requires Regular(field) && place in Locations(field)
    ensures Get(docs[|steps|], place) == Get(source, place)
  {
    hide OnForm, LeavesOut, Locations, Get, StepMeets, Regular;
    if |steps| > 0 {
      var n := |steps| - 1;
      Shorten(v8, source, steps, docs);
      UntouchedFieldKeeps(v8, source, steps[..n], docs[..n + 1], field, place);
      StepSpares(v8, source, docs[n], docs[n + 1], steps[n], field, place);
    }
  }

  lemma Shorten(v8: bool, source: Doc, steps: seq<Step>, docs: seq<Doc>)
    requires Run(v8, source, steps, docs) && FormSave(steps) && |steps| > 0
    ensures Run(v8, source, steps[..|steps| - 1], docs[..|steps|]) && FormSave(steps[..|steps| - 1])
  {
    hide OnForm, LeavesOut, StepMeets;
    var n := |steps| - 1;
    forall i | 0 <= i < n && steps[i].Set? ensures Untouched(steps[..n][..i], steps[i].path) {
      assert steps[..n][..i] == steps[..i];
    }
  }

  /** The effect of an edit, seen from what was read when the save began. */
  function SavedEffect(v8: bool, source: Doc, path: Path, edit: Option<Edit>): Effect {
    match edit
    case None => Kept
    case Some(e) => EffectOf(v8, source, source, path, e)
  }

  lemma SameField(v8: bool, source: Doc, doc: Doc, path: Path, edit: Edit)
    requires forall l | l in Locations(path) :: Get(doc, l) == Get(source, l)
    ensures EffectOf(v8, source, doc, path, edit) == EffectOf(v8, source, source, path, edit)
  {
    hide Mappings, BestMapping, Owner, Historical, Canonical, Get, Trim, Integer;
    TargetsAreLocations(v8, path);
  }

  /** What a place reads after a save: the places of a moved field other than its own are cleaned up. */
  function PlaceAfter(v8: bool, source: Doc, place: Path, edit: Option<Edit>): Option<Doc> {
    match SavedEffect(v8, source, place, edit)
    case Written(v) => if Target(v8, place) == place then Some(v) else None
    case Gone => None
    case Kept => Get(source, place)
  }

  /** The first of the other names of a field that has a value after the save. */
  function NamesAfter(v8: bool, source: Doc, steps: seq<Step>, names: seq<Path>): Option<Doc> {
    if |names| == 0 then None
    else
      var first := PlaceAfter(v8, source, names[0], EditOf(steps, names[0]));
      if first.Some? then first else NamesAfter(v8, source, steps, names[1..])
  }

  /** What a field reads after a save, from what was read when it began. */
  function FieldAfter(v8: bool, source: Doc, steps: seq<Step>, field: Path, names: seq<Path>): Option<Doc> {
    match SavedEffect(v8, source, field, EditOf(steps, field))
    case Written(v) => Some(v)
    case Gone => NamesAfter(v8, source, steps, names)
    case Kept =>
      var own := FirstFound(source, Locations(field));
      if own.Some? then own else NamesAfter(v8, source, steps, names)
  }

  /** The places of a field after an edit: of its own place what the edit says, of the others nothing. */
  lemma EditedPlaces(source: Doc, steps: seq<Step>, docs: seq<Doc>, field: Path)
    requires Run(IsV8Layout(source), source, steps, docs) && FormSave(steps) && |steps| > 0
    requires Regular(field) && steps[|steps| - 1].Set? && steps[|steps| - 1].path == field
    ensures Get(docs[|steps|], field) == PlaceAfter(IsV8Layout(source), source, field, Some(steps[|steps| - 1].edit))
    ensures Read(docs[|steps|], field, [])
      == ReadAfter(EffectOf(IsV8Layout(source), source, source, field, steps[|steps| - 1].edit), source, field, [])
  {
    hide OnForm, LeavesOut, Locations, Get, IsV8Layout, Read, FirstFound, EffectOf, Meets, Regular;
    var v8, n := IsV8Layout(source), |steps| - 1;
    var last, before, after := steps[n], docs[n], docs[n + 1];
    Shorten(v8, source, steps, docs);
    assert steps[..n] == steps[..n][..n];
    forall l | l in Locations(field) ensures Get(before, l) == Get(source, l) {
      UntouchedFieldKeeps(v8, source, steps[..n], docs[..n + 1], field, l);
    }
    SameField(v8, source, before, field, last.edit);
    LegacySource(source, before, field);
    var effect := EffectOf(v8, source, source, field, last.edit);
    PutGet(v8, before, after, field, effect, []);
    ReadSame(source, before, field, []);
    SameReads(source, before, []);
    OwnPlace(v8, source, before, after, field, effect);
  }

  lemma OwnPlace(v8: bool, source: Doc, before: Doc, after: Doc, field: Path, effect: Effect)
    requires Meets(v8, before, after, field, effect)
    requires forall l | l in Locations(field) :: Get(before, l) == Get(source, l)
    ensures Get(after, field)
      == match effect
         case Written(v) => if Target(v8, field) == field then Some(v) else None
         case Gone => None
         case Kept => Get(source, field)
  {
    hide Mappings, BestMapping, Owner, Canonical, Historical, Get, V8Root;
    if Mapped(field) { MappedFacts(field, []); } else { UnmappedFacts(field); }
    assert field in Locations(field);
    assert Target(v8, field) == field || field in Copies(v8, field);
  }

  /** The place of a name after any save. */
  lemma {:induction false} PlaceAfterSave(source: Doc, steps: seq<Step>, docs: seq<Doc>, place: Path)
    requires Run(IsV8Layout(source), source, steps, docs) && FormSave(steps)
    requires Regular(place) && FieldOf(steps, place)
    ensures Get(docs[|steps|], place) == PlaceAfter(IsV8Layout(source), source, place, EditOf(steps, place))
    ensures Read(docs[|steps|], place, [])
      == ReadAfter(SavedEffect(IsV8Layout(source), source, place, EditOf(steps, place)), source, place, [])
  {
    hide OnForm, LeavesOut, Locations, Get, StepMeets, IsV8Layout, Read, FirstFound, EffectOf, Regular, Target;
    if |steps| > 0 {
      var v8, n := IsV8Layout(source), |steps| - 1;
      var last, before, after := steps[n], docs[n], docs[n + 1];
      Shorten(v8, source, steps, docs);
      if last.Set? && last.path == place {
        EditedPlaces(source, steps, docs, place);
      } else {
        PlaceAfterSave(source, steps[..n], docs[..n + 1], place);
        forall l | l in Locations(place) + [] ensures Get(after, l) == Get(before, l) {
          StepSpares(v8, source, before, after, last, place, l);
        }
        OwnLocation(place);
        assert OnForm(last) && LeavesOut(last, place);
        StepSpares(v8, source, before, after, last, place, place);
        ReadSame(before, after, place, []);
      }
    }
  }

  lemma OwnLocation(p: Path)
    ensures p in Locations(p)
  {
    hide Mappings, BestMapping, Owner, Historical, V8Root;
    if Mapped(p) { MappedFacts(p, []); } else { UnmappedFacts(p); }
  }

  lemma {:induction false} NamesAfterSave(source: Doc, steps: seq<Step>, docs: seq<Doc>, names: seq<Path>)
    requires Run(IsV8Layout(source), source, steps, docs) && FormSave(steps)
    requires forall a | a in names :: Regular(a) && FieldOf(steps, a)
    ensures FirstFound(docs[|steps|], names) == NamesAfter(IsV8Layout(source), source, steps, names)
  {
    hide FormSave, FieldOf, Get, StepMeets, IsV8Layout, Regular, PlaceAfter;
    if |names| > 0 {
      PlaceAfterSave(source, steps, docs, names[0]);
      NamesAfterSave(source, steps, docs, names[1..]);
    }
  }

  /**
    The lens theorem. Whatever a save edits, each field of the form reads
    afterwards as its own edit says, and as before if it was not edited; where
    neither gives a value, as the edits of its other names say.
   */
  lemma FieldAfterSave(source: Doc, steps: seq<Step>, docs: seq<Doc>, field: Path, names: seq<Path>)
    requires Run(IsV8Layout(source), source, steps, docs) && FormSave(steps)
    requires Regular(field) && FieldOf(steps, field)
    requires forall a | a in names :: Regular(a) && FieldOf(steps, a)
    ensures Read(docs[|steps|], field, names) == FieldAfter(IsV8Layout(source), source, steps, field, names)
  {
    hide FormSave, FieldOf, Get, StepMeets, IsV8Layout, Regular, PlaceAfter, Locations, EffectOf, NamesAfter, FirstFound;
    PlaceAfterSave(source, steps, docs, field);
    NamesAfterSave(source, steps, docs, names);
    FirstFoundSplit(docs[|steps|], Locations(field), names);
    NoNames(docs[|steps|], field);
    NoNames(source, field);
  }

  lemma NoNames(doc: Doc, field: Path)
    ensures Read(doc, field, []) == FirstFound(doc, Locations(field)) && FirstFound(doc, []) == None
  {
    hide Locations, Get;
    assert Locations(field) + [] == Locations(field);
  }

  lemma AliasPlace(a: Path)
    requires !Mapped(a)
    ensures a in Locations(a)
  {
    UnmappedFacts(a);
  }

  lemma ReadSame(before: Doc, after: Doc, field: Path, aliases: seq<Path>)
    requires forall l | l in Locations(field) + aliases :: Get(after, l) == Get(before, l)
    ensures Read(after, field, aliases) == Read(before, field, aliases)
  {
    hide Locations, Get;
    SameReads(before, after, Locations(field) + aliases);
  }

  lemma LegacySource(source: Doc, before: Doc, field: Path)
    requires forall l | l in Locations(field) :: Get(before, l) == Get(source, l)
    ensures OnlyTargets(IsV8Layout(source), before, field)
  {
    hide Locations, Get, IsV8Layout;
    if !IsV8Layout(source) {
      forall l | l in Locations(field) && l != field ensures !Has(before, l) {
        LegacyLayoutOnlyLegacyPaths(source, field, l);
      }
    }
  }
}
