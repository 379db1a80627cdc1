/**
  Saving a form field into the YAML document, and reading it back: the writers
  of the visual configuration editor over all the places a field may be at.
 */
module ConfigSave {
  import opened YamlTree
  import opened ConfigPaths
  import opened Decimals
  import GoText

  type Doc = Node<Key>

  // ----- Text of the form -----

  /** The characters String.prototype.trim removes. */
  predicate White(c: char) {
    || '\t' <= c <= '\r' || c == ' ' || c == '\U{00A0}' || c == '\U{1680}' || '\U{2000}' <= c <= '\U{200A}'
    || c == '\U{2028}' || c == '\U{2029}' || c == '\U{202F}' || c == '\U{205F}' || c == '\U{3000}' || c == '\U{FEFF}'
  }

  /** Those of Unicode but for the next-line control, and the byte order mark: where Go's trimming and the panel's differ. */
  lemma WhiteExactly(c: char)
    ensures White(c) <==>
      || c as int in {0x09, 0x0A, 0x0B, 0x0C, 0x0D, 0x20, 0xFEFF}
      || (GoText.UnicodeSpace(c as int) && c as int != 0x85)
  {
  }

  function Trim(s: string): (r: string)
    ensures r == "" <==> forall i | 0 <= i < |s| :: White(s[i])
    ensures r != "" ==> !White(r[0]) && !White(r[|r| - 1])
  {
    if s == "" then ""
    else if White(s[0]) then
      assert forall i | 0 <= i < |s| - 1 :: s[1..][i] == s[i + 1];
      Trim(s[1..])
    else if White(s[|s| - 1]) then
      Trim(s[..|s| - 1])
    else s
  }

  /** The text stands in s from i on, with nothing but white space before and behind it. */
  ghost predicate Amid(s: string, t: string, i: nat) {
    && i + |t| <= |s| && s[i..i + |t|] == t
    && (forall k | 0 <= k < i :: White(s[k])) && forall k | i + |t| <= k < |s| :: White(s[k])
  }

  lemma AmidMore(s: string, t: string, i: nat)
    requires |s| > 0
    ensures White(s[0]) && Amid(s[1..], t, i) ==> Amid(s, t, i + 1)
    ensures White(s[|s| - 1]) && Amid(s[..|s| - 1], t, i) ==> Amid(s, t, i)
  {
    hide White;
    var rest, front := s[1..], s[..|s| - 1];
    assert forall k | 0 < k < |s| :: s[k] == rest[k - 1];
    assert forall k | 0 <= k < |s| - 1 :: s[k] == front[k];
    if Amid(rest, t, i) { assert s[i + 1..i + 1 + |t|] == rest[i..i + |t|]; }
    if Amid(front, t, i) { assert s[i..i + |t|] == front[i..i + |t|]; }
  }

  /** What is cut off is white space at the ends. */
  lemma {:induction false} TrimIsAmid(s: string) returns (i: nat)
    ensures Amid(s, Trim(s), i)
  {
    hide White, Amid;
    if s == "" {
      i := 0;
      AmidItself(s);
    } else if White(s[0]) {
      i := TrimIsAmid(s[1..]);
      AmidMore(s, Trim(s), i);
      i := i + 1;
    } else if White(s[|s| - 1]) {
      i := TrimIsAmid(s[..|s| - 1]);
      AmidMore(s, Trim(s), i);
    } else {
      i := 0;
      AmidItself(s);
    }
  }

  lemma AmidItself(s: string)
    ensures Amid(s, s, 0)
  {
  }

  // ----- Reading -----

  function FirstFound(doc: Doc, paths: seq<Path>): Option<Doc> {
    if |paths| == 0 then None
    else if Has(doc, paths[0]) then Get(doc, paths[0])
    else FirstFound(doc, paths[1..])
  }

  /** readVisualConfigValue. */
  function Read(doc: Doc, path: Path, aliases: seq<Path>): Option<Doc> {
    FirstFound(doc, Locations(path) + aliases)
  }

  /** The loop over a list of places, up to the first where something is found. */
  method Search(doc: Doc, paths: seq<Path>) returns (value: Option<Doc>)
    ensures value == FirstFound(doc, paths)
  {
    for i := 0 to |paths|
      invariant FirstFound(doc, paths) == FirstFound(doc, paths[i..])
    {
      if Has(doc, paths[i]) {
        return Get(doc, paths[i]);
      }
      assert paths[i..][1..] == paths[i + 1..];
    }
    value := None;
  }

  method ReadValue(doc: Doc, path: Path, aliases: seq<Path>) returns (value: Option<Doc>)
    ensures value == Read(doc, path, aliases)
  {
    hide Mappings, BestMapping, Canonical, Historical, Get, FirstFound;
    FirstFoundSplit(doc, Locations(path), aliases);
    FirstFoundSplit(doc, [Canonical(path)], Alternatives(path));
    FirstFoundSplit(doc, Historical(path), [path]);
    FirstFoundOne(doc, Canonical(path));
    FirstFoundOne(doc, path);
    assert Canonical(path) == path ==> Locations(path) == [path];
    if Canonical(path) != path {
      if Has(doc, Canonical(path)) {
        return Get(doc, Canonical(path));
      }
      value := Search(doc, Historical(path));
      if value.Some? {
        return;
      }
    }
    if Has(doc, path) {
      return Get(doc, path);
    }
    value := Search(doc, aliases);
  }

  lemma {:induction false} FirstFoundSplit(doc: Doc, first: seq<Path>, second: seq<Path>)
    ensures FirstFound(doc, first + second)
      == if FirstFound(doc, first).Some? then FirstFound(doc, first) else FirstFound(doc, second)
  {
    if |first| > 0 {
      FirstFoundSplit(doc, first[1..], second);
      assert (first + second)[1..] == first[1..] + second;
    } else {
      assert first + second == second;
    }
  }

  lemma FirstFoundOne(doc: Doc, path: Path)
    ensures FirstFound(doc, [path]) == Get(doc, path)
  {
  }

  lemma {:induction false} NothingFound(doc: Doc, paths: seq<Path>)
    requires forall p | p in paths :: !Has(doc, p)
    ensures FirstFound(doc, paths) == None
  {
    if |paths| > 0 { NothingFound(doc, paths[1..]); }
  }

  lemma {:induction false} SameReads(doc: Doc, doc': Doc, paths: seq<Path>)
    requires forall p | p in paths :: Get(doc', p) == Get(doc, p)
    ensures FirstFound(doc', paths) == FirstFound(doc, paths)
  {
    if |paths| > 0 { SameReads(doc, doc', paths[1..]); }
  }

  // ----- Where a save writes -----

  /** mappedPath: only documents in the V8 layout are written at the canonical places. */
  function Target(v8: bool, path: Path): (r: Path)
    ensures |path| > 0 ==> |r| > 0
  {
    CanonicalNonempty(path);
    if v8 then Canonical(path) else path
  }

  /** The historical and legacy copies a save removes. */
  function Copies(v8: bool, path: Path): (r: seq<Path>)
    ensures |path| > 0 ==> forall c | c in r :: |c| > 0
  {
    if v8 then Alternatives(path) else []
  }

  lemma CanonicalNonempty(path: Path)
    ensures |path| > 0 ==> |Canonical(path)| > 0
  {
    hide Mappings, BestMapping, Owner, V8Root;
    if Mapped(path) { MappedFacts(path, []); } else { UnmappedFacts(path); }
  }

  /** hasCompat: is the field anywhere, in the document being edited or in the one that was read? */
  predicate HasField(v8: bool, source: Doc, doc: Doc, path: Path) {
    || Has(doc, Target(v8, path)) || Has(source, Target(v8, path))
    || exists c | c in Copies(v8, path) :: Has(doc, c) || Has(source, c)
  }

  // ----- What the writers do -----

  /** ensureParents, then setIn. */
  function Put(doc: Doc, path: Path, v: Doc): (r: Doc)
    requires doc.Map? && |path| > 0
    ensures r.Map?
  {
    var m := |path| - 1;
    var parents := EnsureParents(doc, path, m);
    SetInSucceeds(parents, path, v);
    SetIn(parents, path, v).value
  }

  /** deleteIn and pruneEmptyParents, when there is something to delete. */
  function Drop(doc: Doc, path: Path): (r: Doc)
    requires doc.Map? && |path| > 0
    ensures r.Map?
  {
    if Has(doc, path) then
      PruneParentsLaws(DeleteIn(doc, path), path, |path| - 1, []);
      PruneParents(DeleteIn(doc, path), path, |path| - 1)
    else doc
  }

  function DropAll(doc: Doc, paths: seq<Path>): (r: Doc)
    requires doc.Map? && forall p | p in paths :: |p| > 0
    ensures r.Map?
  {
    if |paths| == 0 then doc else Drop(DropAll(doc, paths[..|paths| - 1]), paths[|paths| - 1])
  }

  datatype Edit =
    | Value(value: Doc)
    | Boolean(flag: bool)
    | Str(text: string)
    | Whole(text: string)
    | Mode(mode: Scalar)
    | Remove
    | Discard

  /** What a save leaves of a field: a value at the target and no copies, nothing at all, or what was there. */
  datatype Effect = Written(value: Doc) | Gone | Kept

  predicate Moved(v8: bool, path: Path) {
    v8 && Canonical(path) != path
  }

  function EffectOf(v8: bool, source: Doc, doc: Doc, path: Path, edit: Edit): Effect {
    var present := HasField(v8, source, doc, path);
    match edit
    case Value(v) => Written(v)
    case Boolean(b) => if Moved(v8, path) || b || present then Written(Leaf(Bool(b))) else Kept
    case Str(s) =>
      if Trim(s) == "" && !present then Kept
      else Written(Leaf(Text(if Trim(s) == "" && !Moved(v8, path) then "" else s)))
    case Whole(s) =>
      if Trim(s) == "" then Gone
      else if Numeral(Trim(s)) then Written(Leaf(Number(Integer(Trim(s)))))
      else Kept
    case Mode(m) => if Moved(v8, path) || m != Bool(false) || present then Written(Leaf(m)) else Kept
    case Remove => Gone
    case Discard => Gone
  }

  /** A place that lies neither above nor below any place the save of this field writes. */
  ghost predicate Beside(v8: bool, path: Path, x: Path) {
    !Comparable(Target(v8, path), x) && forall c | c in Copies(v8, path) :: !Comparable(c, x)
  }

  /** The save of one field had the effect, and no other effect. */
  ghost predicate Meets(v8: bool, before: Doc, after: Doc, path: Path, effect: Effect) {
    && after.Map?
    && (match effect
        case Written(v) => Get(after, Target(v8, path)) == Some(v) && forall c | c in Copies(v8, path) :: !Has(after, c)
        case Gone => !Has(after, Target(v8, path)) && forall c | c in Copies(v8, path) :: !Has(after, c)
        case Kept => after == before)
    && forall x | Beside(v8, path, x) :: Get(after, x) == Get(before, x)
  }

  lemma PutLaws(doc: Doc, path: Path, v: Doc, x: Path)
    requires doc.Map? && |path| > 0
    ensures Get(Put(doc, path, v), path) == Some(v)
    ensures !Comparable(path, x) ==> Get(Put(doc, path, v), x) == Get(doc, x)
  {
    var m := |path| - 1;
    var parents := EnsureParents(doc, path, m);
    SetInSucceeds(parents, path, v);
    GetSetIn(parents, path, v, path);
    GetSetIn(parents, path, v, x);
    if !(x <= path) { EnsureParentsFrame(doc, path, m, x); }
  }

  lemma DropLaws(doc: Doc, path: Path, x: Path)
    requires doc.Map? && |path| > 0
    ensures !Has(Drop(doc, path), path)
    ensures !Comparable(path, x) ==> Get(Drop(doc, path), x) == Get(doc, x)
  {
    if Has(doc, path) {
      var m := |path| - 1;
      GetDeleteIn(doc, path, path);
      GetDeleteIn(doc, path, x);
      PruneParentsLaws(DeleteIn(doc, path), path, m, path);
      PruneParentsLaws(DeleteIn(doc, path), path, m, x);
      if x <= path[..m] { assert x <= path; }
    }
  }

  ghost predicate PairwiseApart(paths: seq<Path>) {
    forall i, j | 0 <= i < j < |paths| :: !Comparable(paths[i], paths[j])
  }

  lemma {:induction false} DropAllLaws(doc: Doc, paths: seq<Path>, x: Path)
    requires doc.Map? && (forall p | p in paths :: |p| > 0) && PairwiseApart(paths)
    ensures forall p | p in paths :: !Has(DropAll(doc, paths), p)
    ensures (forall p | p in paths :: !Comparable(p, x)) ==> Get(DropAll(doc, paths), x) == Get(doc, x)
    ensures (forall p | p in paths :: !Has(doc, p)) ==> DropAll(doc, paths) == doc
  {
    if |paths| > 0 {
      var rest, last := paths[..|paths| - 1], paths[|paths| - 1];
      assert forall p | p in paths :: p in rest || p == last;
      DropAllLaws(doc, rest, x);
      DropAllLaws(doc, rest, last);
      DropLaws(DropAll(doc, rest), last, x);
      forall p | p in rest ensures !Has(DropAll(doc, paths), p) {
        var i :| 0 <= i < |rest| && rest[i] == p;
        assert !Comparable(paths[i], paths[|paths| - 1]);
        DropLaws(DropAll(doc, rest), last, p);
      }
    }
  }

  lemma CopiesApart(v8: bool, path: Path)
    ensures PairwiseApart(Copies(v8, path))
    ensures forall c | c in Copies(v8, path) :: !Comparable(Target(v8, path), c)
  {
    hide Mappings, BestMapping, Owner, V8Root, Canonical, Historical;
    if Mapped(path) {
      MappedFacts(path, []);
      forall h ensures h in Historical(path) ==> !Comparable(Canonical(path), h) && !Comparable(h, path) {
        PlacesApart(path, h);
      }
      PlacesApart(path, path);
      OneHistorical(path);
    } else {
      UnmappedFacts(path);
    }
  }

  lemma OneHistorical(path: Path)
    ensures |Historical(path)| <= 1
  {
  }

  lemma PutMeets(v8: bool, doc: Doc, path: Path, v: Doc)
    requires doc.Map? && |path| > 0
    ensures Meets(v8, doc, DropAll(Put(doc, Target(v8, path), v), Copies(v8, path)), path, Written(v))
  {
    hide Put, DropAll, Target, Copies, Get;
    CopiesApart(v8, path);
    var put := Put(doc, Target(v8, path), v);
    PutLaws(doc, Target(v8, path), v, []);
    DropAllLaws(put, Copies(v8, path), Target(v8, path));
    forall c | c in Copies(v8, path) ensures !Comparable(c, Target(v8, path)) {}
    forall x | Beside(v8, path, x) ensures Get(DropAll(put, Copies(v8, path)), x) == Get(doc, x) {
      PutLaws(doc, Target(v8, path), v, x);
      DropAllLaws(put, Copies(v8, path), x);
    }
  }

  lemma DeleteMeets(v8: bool, doc: Doc, path: Path)
    requires doc.Map? && |path| > 0
    ensures Meets(v8, doc, DropAll(Drop(doc, Target(v8, path)), Copies(v8, path)), path, Gone)
  {
    hide Drop, DropAll, Target, Copies, Get;
    CopiesApart(v8, path);
    var dropped := Drop(doc, Target(v8, path));
    DropLaws(doc, Target(v8, path), []);
    DropAllLaws(dropped, Copies(v8, path), Target(v8, path));
    forall x | Beside(v8, path, x) ensures Get(DropAll(dropped, Copies(v8, path)), x) == Get(doc, x) {
      DropLaws(doc, Target(v8, path), x);
      DropAllLaws(dropped, Copies(v8, path), x);
    }
  }

  /** Dropping copies that are not there is no edit. */
  lemma NothingDropped(v8: bool, doc: Doc, path: Path)
    requires doc.Map? && |path| > 0 && !HasField(v8, doc, doc, path)
    ensures DropAll(doc, Copies(v8, path)) == doc && Meets(v8, doc, doc, path, Kept)
  {
    hide Get, DropAll, Target, Copies;
    CopiesApart(v8, path);
    DropAllLaws(doc, Copies(v8, path), path);
  }

  /** Where nothing moved there is only the target, and it is the path itself. */
  lemma SetMeets(v8: bool, doc: Doc, path: Path, v: Doc)
    requires doc.Map? && |path| > 0 && !Moved(v8, path)
    ensures SetIn(doc, path, v).Some? ==> Meets(v8, doc, SetIn(doc, path, v).value, path, Written(v))
  {
    hide Canonical, Get, Mappings, BestMapping;
    if SetIn(doc, path, v).Some? {
      GetSetIn(doc, path, v, path);
      assert path[|path|..] == [];
      GetRoot(v);
      forall x | Beside(v8, path, x) ensures Get(SetIn(doc, path, v).value, x) == Get(doc, x) {
        GetSetIn(doc, path, v, x);
      }
    }
  }

  lemma DeleteInMeets(v8: bool, doc: Doc, path: Path)
    requires doc.Map? && |path| > 0 && !Moved(v8, path)
    ensures Meets(v8, doc, if Has(doc, path) then DeleteIn(doc, path) else doc, path, Gone)
  {
    hide Canonical, Mappings, BestMapping;
    if Has(doc, path) {
      GetDeleteIn(doc, path, path);
      forall x | Beside(v8, path, x) ensures Get(DeleteIn(doc, path), x) == Get(doc, x) {
        GetDeleteIn(doc, path, x);
      }
    }
  }

  lemma GetRoot(v: Doc)
    ensures Get(v, []) == Some(v)
  {
  }

  // ----- Groups, and whole saves -----

  /** A place that no place of the group lies under. */
  ghost predicate OffTheWay(v8: bool, group: Path, x: Path) {
    !(x <= Target(v8, group)) && forall c | c in Copies(v8, group) :: !(x <= c)
  }

  ghost predicate GroupMeets(v8: bool, before: Doc, after: Doc, group: Path) {
    after.Map? && forall x | OffTheWay(v8, group, x) :: Get(after, x) == Get(before, x)
  }

  lemma PruneAllLaws(doc: Doc, path: Path)
    requires doc.Map? && |path| > 0
    ensures Get(PruneParents(doc, path, |path|), path) != Some(Empty())
    ensures forall x | !(x <= path) :: Get(PruneParents(doc, path, |path|), x) == Get(doc, x)
  {
    hide PruneParents, Get;
    PruneParentsLaws(doc, path, |path|, path);
    assert path[..|path|] == path;
    forall x | !(x <= path) ensures Get(PruneParents(doc, path, |path|), x) == Get(doc, x) {
      PruneParentsLaws(doc, path, |path|, x);
    }
  }

  lemma PruneOnce(doc: Doc, path: Path)
    requires doc.Map? && |path| > 0
    ensures PruneParents(doc, path, |path|) == PruneParents(DeleteIfMapEmpty(doc, path), path, |path| - 1)
    ensures DeleteIfMapEmpty(doc, path).Map?
  {
    assert path[..|path|] == path;
  }

  /** One copy is not on the way to the target, nor to another copy. */
  lemma Aside(copies: seq<Path>, i: nat, target: Path)
    requires PairwiseApart(copies) && (forall c | c in copies :: !Comparable(target, c)) && i < |copies|
    ensures copies[i] in copies && !(target <= copies[i]) && forall j | 0 <= j < i :: !(copies[j] <= copies[i])
  {
    assert copies[i] in copies;
    assert forall j | 0 <= j < i :: !Comparable(copies[j], copies[i]);
  }

  // The provider an old format kept the client keys in.
  const KEYS_PROVIDER: Path := [AUTH, PROVIDERS, CONFIG_API_KEY]
  const PROVIDER_ENTRIES: Path := [AUTH, PROVIDERS, CONFIG_API_KEY, API_KEY_ENTRIES]
  const PROVIDER_KEYS: Path := [AUTH, PROVIDERS, CONFIG_API_KEY, API_KEYS]

  /** Both lists of the old provider are gone, and besides them only empty maps above. */
  ghost predicate Tidied(before: Doc, after: Doc) {
    && after.Map? && !Has(after, PROVIDER_ENTRIES) && !Has(after, PROVIDER_KEYS)
    && forall x | !(x <= KEYS_PROVIDER) && !Comparable(PROVIDER_ENTRIES, x) && !Comparable(PROVIDER_KEYS, x) :: Get(after, x) == Get(before, x)
  }

  lemma GetDeleteInLaws(doc: Doc, path: Path)
    requires doc.Map? && |path| > 0
    ensures var after := if Has(doc, path) then DeleteIn(doc, path) else doc;
      after.Map? && !Has(after, path) && forall x | !Comparable(path, x) :: Get(after, x) == Get(doc, x)
  {
    if Has(doc, path) {
      GetDeleteIn(doc, path, path);
      forall x | !Comparable(path, x) ensures Get(DeleteIn(doc, path), x) == Get(doc, x) {
        GetDeleteIn(doc, path, x);
      }
    }
  }

  datatype Step =
    | Set(path: Path, edit: Edit)
    | Make(path: Path)
    | Clear(path: Path)
    | Tidy

  ghost predicate StepMeets(v8: bool, source: Doc, before: Doc, after: Doc, step: Step) {
    match step
    case Set(path, edit) =>
      && Meets(v8, before, after, path, EffectOf(v8, source, before, path, edit))
      && (edit.Whole? && !Moved(v8, path) ==> KeepsMapAbove(before, after, path))
    case Make(path) => GroupMeets(v8, before, after, path) && IsMap(after, Target(v8, path))
    case Clear(path) => GroupMeets(v8, before, after, path) && NoneEmpty(v8, after, path)
    case Tidy => Tidied(before, after)
  }

  /** No place of the group is an empty map. */
  ghost predicate NoneEmpty(v8: bool, doc: Doc, group: Path) {
    Get(doc, Target(v8, group)) != Some(Empty()) && forall c | c in Copies(v8, group) :: Get(doc, c) != Some(Empty())
  }

  /** A map right above the field stays one, even when the field goes. */
  predicate KeepsMapAbove(before: Doc, after: Doc, path: Path) {
    |path| > 0 && IsMap(before, path[..|path| - 1]) ==> IsMap(after, path[..|path| - 1])
  }

  /** Where a write may throw: it does not make the parents of its field first, and what is above the field is no map. */
  predicate Throws(v8: bool, doc: Doc, step: Step) {
    && step.Set? && (step.edit.Boolean? || step.edit.Str? || step.edit.Whole? || step.edit.Mode?)
    && |step.path| > 0 && !Moved(v8, step.path) && !IsMap(doc, step.path[..|step.path| - 1])
  }

  /** The documents between the steps of a save that started from what was read. */
  ghost predicate Run(v8: bool, source: Doc, steps: seq<Step>, docs: seq<Doc>) {
    && |docs| == |steps| + 1 && docs[0] == source
    && forall j | 0 <= j < |steps| :: StepMeets(v8, source, docs[j], docs[j + 1], steps[j])
  }

  class Save {
    const v8: bool
    const source: Doc
    var doc: Doc

    constructor (v8: bool, source: Doc)
      requires source.Map?
      ensures this.v8 == v8 && this.source == source && doc == source
    {
      this.v8, this.source, this.doc := v8, source, source;
    }

    method EnsureParentMaps(path: Path)
      requires doc.Map? && |path| > 0
      modifies this
      ensures doc == EnsureParents(old(doc), path, |path| - 1) && doc.Map?
    {
      for length := 1 to |path|
        invariant doc.Map? && doc == EnsureParents(old(doc), path, length - 1)
      {
        var parent := path[..length];
        assert parent[..length - 1] == path[..length - 1];
        EnsureMapInDoc(parent);
      }
    }

    method EnsureMapInDoc(path: Path)
      requires doc.Map? && |path| > 0 && IsMap(doc, path[..|path| - 1])
      modifies this
      ensures doc == EnsureMap(old(doc), path) && doc.Map?
    {
      EnsureMapRoot(doc, path);
      if IsMap(doc, path) {
        return;
      }
      SetInSucceeds(doc, path, Empty());
      doc := YamlTree.SetIn(doc, path, Empty()).value;
    }

    method PruneEmptyParents(path: Path)
      requires doc.Map? && |path| > 0
      modifies this
      ensures doc == PruneParents(old(doc), path, |path| - 1) && doc.Map?
    {
      var length := |path| - 1;
      PruneParentsLaws(doc, path, |path| - 1, []);
      while length >= 1
        invariant 0 <= length < |path|
        invariant PruneParents(doc, path, length) == PruneParents(old(doc), path, |path| - 1)
      {
        ghost var pruned := DeleteIfMapEmpty(doc, path[..length]);
        assert PruneParents(doc, path, length) == PruneParents(pruned, path, length - 1);
        if Get(doc, path[..length]) == Some(Empty()) {
          doc := DeleteIn(doc, path[..length]);
        }
        assert doc == pruned;
        length := length - 1;
      }
    }

    method Delete(path: Path)
      requires doc.Map? && |path| > 0
      modifies this
      ensures doc == Drop(old(doc), path)
    {
      if Has(doc, path) {
        doc := DeleteIn(doc, path);
        PruneEmptyParents(path);
      }
    }

    method Write(path: Path, v: Doc)
      requires doc.Map? && |path| > 0
      modifies this
      ensures doc == Put(old(doc), path, v)
    {
      EnsureParentMaps(path);
      SetInSucceeds(doc, path, v);
      doc := YamlTree.SetIn(doc, path, v).value;
    }

    method DropCompatibilityAlternatives(path: Path)
      requires doc.Map? && |path| > 0 && forall c | c in Copies(v8, path) :: |c| > 0
      modifies this
      ensures doc == DropAll(old(doc), Copies(v8, path))
    {
      hide Drop, Canonical, Historical;
      if v8 && Canonical(path) != path {
        var historical := Historical(path);
        var copies := Copies(v8, path);
        assert copies == historical + [path];
        for i := 0 to |historical|
          invariant doc.Map? && doc == DropAll(old(doc), copies[..i])
        {
          assert copies[..i + 1][..i] == copies[..i] && copies[i] == historical[i];
          Delete(historical[i]);
        }
        assert copies[..|historical|] == copies[..|copies| - 1];
        Delete(path);
      }
    }

    method DeleteCompat(path: Path)
      requires doc.Map? && |path| > 0
      modifies this
      ensures Meets(v8, old(doc), doc, path, Gone)
    {
      DeleteMeets(v8, doc, path);
      Delete(Target(v8, path));
      DropCompatibilityAlternatives(path);
    }

    method SetCompatValue(path: Path, v: Doc)
      requires doc.Map? && |path| > 0
      modifies this
      ensures Meets(v8, old(doc), doc, path, Written(v))
    {
      PutMeets(v8, doc, path, v);
      Write(Target(v8, path), v);
      DropCompatibilityAlternatives(path);
    }

    /** doc.setIn on its own, which throws when a scalar is in the way. */
    method SetIn(path: Path, v: Doc) returns (ok: bool)
      requires doc.Map? && |path| > 0
      modifies this
      ensures ok == YamlTree.SetIn(old(doc), path, v).Some?
      ensures doc == if ok then YamlTree.SetIn(old(doc), path, v).value else old(doc)
    {
      var changed := YamlTree.SetIn(doc, path, v);
      ok := changed.Some?;
      if ok {
        doc := changed.value;
      }
    }

    method SetBooleanInDoc(path: Path, b: bool) returns (ok: bool)
      requires doc.Map? && |path| > 0 && !Moved(v8, path)
      modifies this
      ensures ok && (b || Has(old(doc), path)) ==> Meets(v8, old(doc), doc, path, Written(Leaf(Bool(b))))
      ensures !b && !Has(old(doc), path) ==> ok && doc == old(doc)
      ensures IsMap(old(doc), path[..|path| - 1]) ==> ok
    {
      SetMeets(v8, doc, path, Leaf(Bool(b)));
      SetInSucceeds(doc, path, Leaf(Bool(b)));
      ok := true;
      if b {
        ok := SetIn(path, Leaf(Bool(true)));
        return;
      }
      if Has(doc, path) {
        ok := SetIn(path, Leaf(Bool(false)));
      }
    }

    method SetStringInDoc(path: Path, s: string) returns (ok: bool)
      requires doc.Map? && |path| > 0 && !Moved(v8, path)
      modifies this
      ensures ok && Trim(s) != "" ==> Meets(v8, old(doc), doc, path, Written(Leaf(Text(s))))
      ensures ok && Trim(s) == "" && Has(old(doc), path) ==> Meets(v8, old(doc), doc, path, Written(Leaf(Text(""))))
      ensures Trim(s) == "" && !Has(old(doc), path) ==> ok && doc == old(doc)
      ensures IsMap(old(doc), path[..|path| - 1]) ==> ok
    {
      var v := Leaf(Text(if Trim(s) != "" then s else ""));
      SetMeets(v8, doc, path, v);
      SetInSucceeds(doc, path, v);
      ok := true;
      if Trim(s) != "" {
        ok := SetIn(path, Leaf(Text(s)));
        return;
      }
      if Has(doc, path) {
        ok := SetIn(path, Leaf(Text("")));
      }
    }

    method SetIntFromStringInDoc(path: Path, s: string) returns (ok: bool)
      requires doc.Map? && |path| > 0 && !Moved(v8, path)
      modifies this
      ensures ok ==> Meets(v8, old(doc), doc, path, EffectOf(v8, source, old(doc), path, Whole(s)))
      ensures ok ==> KeepsMapAbove(old(doc), doc, path)
      ensures IsMap(old(doc), path[..|path| - 1]) ==> ok
    {
      var trimmed := Trim(s);
      ok := true;
      if trimmed == "" {
        DeleteInMeets(v8, doc, path);
        if Has(doc, path) {
          MapAbove(doc, path);
          doc := DeleteIn(doc, path);
        }
        return;
      }
      if !Numeral(trimmed) {
        return;
      }
      var parsed := Leaf(Number(Integer(trimmed)));
      SetMeets(v8, doc, path, parsed);
      SetInSucceeds(doc, path, parsed);
      ok := SetIn(path, parsed);
      if ok { MapAbove(doc, path); }
    }

    method SetCompatBoolean(path: Path, b: bool) returns (ok: bool)
      requires doc.Map? && |path| > 0
      modifies this
      ensures ok ==> Meets(v8, old(doc), doc, path, EffectOf(v8, source, old(doc), path, Boolean(b)))
      ensures Moved(v8, path) || IsMap(old(doc), path[..|path| - 1]) ==> ok
    {
      PutMeets(v8, doc, path, Leaf(Bool(b)));
      ok := true;
      if v8 && Canonical(path) != path {
        Write(Target(v8, path), Leaf(Bool(b)));
        DropCompatibilityAlternatives(path);
        return;
      }
      if !b && Has(source, path) {
        Write(path, Leaf(Bool(false)));
        return;
      }
      ok := SetBooleanInDoc(path, b);
    }

    /** setCompatDisableImageGeneration: like a switch, but a mode may be a text too. */
    method SetCompatDisableImageGeneration(path: Path, m: Scalar) returns (ok: bool)
      requires doc.Map? && |path| > 0
      modifies this
      ensures ok ==> Meets(v8, old(doc), doc, path, EffectOf(v8, source, old(doc), path, Mode(m)))
      ensures Moved(v8, path) || IsMap(old(doc), path[..|path| - 1]) ==> ok
    {
      hide Get, Historical, Mappings;
      PutMeets(v8, doc, path, Leaf(m));
      ok := true;
      if v8 && Canonical(path) != path {
        Write(Target(v8, path), Leaf(m));
        DropCompatibilityAlternatives(path);
        return;
      }
      if m == Bool(false) && Has(source, path) {
        Write(path, Leaf(m));
        return;
      }
      SetMeets(v8, doc, path, Leaf(m));
      SetInSucceeds(doc, path, Leaf(m));
      if m != Bool(false) || Has(doc, path) {
        ok := SetIn(path, Leaf(m));
      }
    }

    /** hasCompat, a loop over the places of the field. */
    method HasCompat(path: Path) returns (found: bool)
      ensures found == HasField(v8, source, doc, path)
    {
      var target, copies := Target(v8, path), Copies(v8, path);
      if Has(doc, target) || Has(source, target) {
        return true;
      }
      for i := 0 to |copies|
        invariant forall j | 0 <= j < i :: !Has(doc, copies[j]) && !Has(source, copies[j])
      {
        if Has(doc, copies[i]) || Has(source, copies[i]) {
          return true;
        }
      }
      found := false;
    }

    /** deleteLegacyApiKeysProvider. */
    method DeleteLegacyApiKeysProvider()
      requires doc.Map?
      modifies this
      ensures Tidied(old(doc), doc)
    {
      hide Get;
      assert PROVIDER_ENTRIES[3] != PROVIDER_KEYS[3];
      assert !Comparable(PROVIDER_KEYS, PROVIDER_ENTRIES) && !(PROVIDER_KEYS <= KEYS_PROVIDER) && !(PROVIDER_ENTRIES <= KEYS_PROVIDER);
      GetDeleteInLaws(doc, PROVIDER_ENTRIES);
      if Has(doc, PROVIDER_ENTRIES) {
        doc := DeleteIn(doc, PROVIDER_ENTRIES);
      }
      GetDeleteInLaws(doc, PROVIDER_KEYS);
      if Has(doc, PROVIDER_KEYS) {
        doc := DeleteIn(doc, PROVIDER_KEYS);
      }
      DeleteIfEmpty(KEYS_PROVIDER);
    }

    /** A text whose field moved is written unless it is blank and the field is nowhere; the copies are dropped in any case. */
    method PutMovedString(path: Path, s: string)
      requires doc.Map? && |path| > 0 && Moved(v8, path)
      modifies this
      ensures Meets(v8, old(doc), doc, path, EffectOf(v8, source, old(doc), path, Str(s)))
    {
      hide Canonical, Historical, Mappings, Trim, Put, Drop, DropAll, Meets;
      if Trim(s) != "" || HasField(v8, source, doc, path) {
        PutMeets(v8, doc, path, Leaf(Text(s)));
        Write(Target(v8, path), Leaf(Text(s)));
      } else {
        NothingDropped(v8, doc, path);
      }
      DropCompatibilityAlternatives(path);
    }

    method SetCompatString(path: Path, s: string) returns (ok: bool)
      requires doc.Map? && |path| > 0
      modifies this
      ensures ok ==> Meets(v8, old(doc), doc, path, EffectOf(v8, source, old(doc), path, Str(s)))
      ensures Moved(v8, path) || IsMap(old(doc), path[..|path| - 1]) ==> ok
    {
      hide Get, Historical, Mappings, Trim;
      ok := true;
      if v8 && Canonical(path) != path {
        PutMovedString(path, s);
        return;
      }
      if Trim(s) == "" && Has(source, path) {
        PutMeets(v8, doc, path, Leaf(Text("")));
        Write(path, Leaf(Text("")));
        return;
      }
      ok := SetStringInDoc(path, s);
    }

    method SetCompatInt(path: Path, s: string) returns (ok: bool)
      requires doc.Map? && |path| > 0
      modifies this
      ensures ok ==> Meets(v8, old(doc), doc, path, EffectOf(v8, source, old(doc), path, Whole(s)))
      ensures ok && !Moved(v8, path) ==> KeepsMapAbove(old(doc), doc, path)
      ensures Moved(v8, path) || IsMap(old(doc), path[..|path| - 1]) ==> ok
    {
      ok := true;
      if v8 && Canonical(path) != path {
        var trimmed := Trim(s);
        if trimmed == "" {
          DeleteCompat(path);
          return;
        }
        if !Numeral(trimmed) {
          return;
        }
        var parsed := Leaf(Number(Integer(trimmed)));
        PutMeets(v8, doc, path, parsed);
        Write(Target(v8, path), parsed);
        DropCompatibilityAlternatives(path);
        return;
      }
      ok := SetIntFromStringInDoc(path, s);
    }

    /** ensureCompatMap. */
    method EnsureCompatMap(group: Path)
      requires doc.Map? && |group| > 0
      modifies this
      ensures GroupMeets(v8, old(doc), doc, group)
      ensures IsMap(doc, Target(v8, group))
    {
      ghost var before := doc;
      var target := Target(v8, group);
      EnsureParentMaps(target);
      ghost var parents := doc;
      EnsureMapInDoc(target);
      EnsureMapLaws(parents, target, []);
      forall x | OffTheWay(v8, group, x) ensures Get(doc, x) == Get(before, x) {
        EnsureParentsFrame(before, target, |target| - 1, x);
        EnsureMapLaws(parents, target, x);
      }
    }

    /** deleteIfMapEmpty and pruneEmptyParents: nothing is lost but empty maps on the way. */
    method DeleteIfEmpty(path: Path)
      requires doc.Map? && |path| > 0
      modifies this
      ensures doc.Map? && Get(doc, path) != Some(Empty())
      ensures forall x | !(x <= path) :: Get(doc, x) == Get(old(doc), x)
    {
      hide PruneParents, Get;
      PruneAllLaws(doc, path);
      PruneOnce(doc, path);
      if Get(doc, path) == Some(Empty()) {
        doc := DeleteIn(doc, path);
      }
      PruneEmptyParents(path);
    }

    /** deleteCompatIfMapEmpty. */
    method DeleteCompatIfMapEmpty(group: Path)
      requires doc.Map? && |group| > 0
      modifies this
      ensures GroupMeets(v8, old(doc), doc, group)
      ensures Get(doc, Target(v8, group)) != Some(Empty())
      ensures forall c | c in Copies(v8, group) :: Get(doc, c) != Some(Empty())
    {
      hide Canonical, Historical, Get, Mappings, BestMapping;
      ghost var before := doc;
      var target := Target(v8, group);
      ghost var copies := Copies(v8, group);
      CopiesApart(v8, group);
      DeleteIfEmpty(target);
      if v8 && Canonical(group) != group {
        var historical := Historical(group);
        assert copies == historical + [group];
        for i := 0 to |historical|
          invariant doc.Map? && Get(doc, target) != Some(Empty())
          invariant forall j | 0 <= j < i :: Get(doc, copies[j]) != Some(Empty())
          invariant forall x | OffTheWay(v8, group, x) :: Get(doc, x) == Get(before, x)
        {
          Aside(copies, i, target);
          DeleteIfEmpty(historical[i]);
        }
        Aside(copies, |historical|, target);
        DeleteIfEmpty(group);
      }
    }

    /** The writes of one save, in order; the first that throws abandons it, because what is above an unmoved field is no map. */
    method Perform(steps: seq<Step>) returns (ok: bool, ghost docs: seq<Doc>)
      requires doc == source && doc.Map? && forall s | s in steps :: s.Tidy? || |s.path| > 0
      modifies this
      ensures ok ==> Run(v8, source, steps, docs) && doc == docs[|steps|]
      ensures !ok ==> 0 < |docs| <= |steps| && Run(v8, source, steps[..|docs| - 1], docs) && Throws(v8, docs[|docs| - 1], steps[|docs| - 1])
    {
      hide StepMeets, Throws;
      ok := true;
      docs := [doc];
      for i := 0 to |steps|
        invariant ok && |docs| == i + 1 && docs[i] == doc && docs[0] == source && doc.Map?
        invariant forall j | 0 <= j < i :: StepMeets(v8, source, docs[j], docs[j + 1], steps[j])
      {
        assert steps[i] in steps;
        ok := TakeStep(steps[i]);
        if !ok {
          return;
        }
        docs := docs + [doc];
      }
    }

    method TakeStep(step: Step) returns (ok: bool)
      requires doc.Map? && (step.Tidy? || |step.path| > 0)
      modifies this
      ensures ok ==> StepMeets(v8, source, old(doc), doc, step) && doc.Map?
      ensures !ok ==> Throws(v8, old(doc), step)
    {
      ok := true;
      match step
      case Set(path, edit) => ok := SetField(path, edit);
      case Make(path) => EnsureCompatMap(path);
      case Clear(path) => DeleteCompatIfMapEmpty(path);
      case Tidy => DeleteLegacyApiKeysProvider();
    }

    method SetField(path: Path, edit: Edit) returns (ok: bool)
      requires doc.Map? && |path| > 0
      modifies this
      ensures ok ==> Meets(v8, old(doc), doc, path, EffectOf(v8, source, old(doc), path, edit))
      ensures ok && edit.Whole? && !Moved(v8, path) ==> KeepsMapAbove(old(doc), doc, path)
      ensures !ok ==> Throws(v8, old(doc), Set(path, edit))
    {
      ok := true;
      match edit
      case Value(v) => SetCompatValue(path, v);
      case Boolean(b) => ok := SetCompatBoolean(path, b);
      case Str(s) => ok := SetCompatString(path, s);
      case Whole(s) => ok := SetCompatInt(path, s);
      case Mode(m) => ok := SetCompatDisableImageGeneration(path, m);
      case Remove => DeleteCompat(path);
      case Discard =>
        var found := HasCompat(path);
        if found {
          DeleteCompat(path);
        }
    }
  }
}
