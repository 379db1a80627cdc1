/**
  The state of the visual configuration editor: the values in the form, the
  values last loaded or committed, and the set of keys a save will write.
  After any sequence of actions a key is in that set exactly when its value
  differs from the baseline. The nested streaming values, which are merged one
  by one, are fields of their own here.
 */
module ConfigDirty {

  const API_KEYS_TEXT := "apiKeysText"
  const SECRET_KEY := "rmSecretKey"
  const SECRET_KEY_ACTION := "rmSecretKeyAction"

  type Values<!V> = string -> V

  /** How the fields are compared: lists by their own relation, everything else by identity. */
  datatype Form<!V> = Form(keys: seq<string>, lists: set<string>, sameList: (V, V) -> bool)

  /** Each list relation is reflexive, and the committed field is compared by identity. */
  ghost predicate WellFormed<V(!new)>(form: Form<V>) {
    (forall v :: form.sameList(v, v)) && API_KEYS_TEXT !in form.lists
  }

  predicate SameField<V(==)>(form: Form<V>, field: string, a: Values<V>, b: Values<V>) {
    if field in form.lists then form.sameList(a(field), b(field)) else a(field) == b(field)
  }

  /** The secret key counts as unchanged only together with its action. */
  predicate SameKey<V(==)>(form: Form<V>, key: string, a: Values<V>, b: Values<V>) {
    && SameField(form, key, a, b)
    && (key == SECRET_KEY ==> SameField(form, SECRET_KEY_ACTION, a, b))
  }

  predicate Touches<V>(patch: map<string, V>, key: string) {
    key in patch || (key == SECRET_KEY && SECRET_KEY_ACTION in patch)
  }

  function Merge<V>(values: Values<V>, patch: map<string, V>): Values<V> {
    field => if field in patch then patch[field] else values(field)
  }

  function NextDirty<V(==)>(form: Form<V>, dirty: set<string>, patch: map<string, V>, next: Values<V>, baseline: Values<V>): set<string> {
    (set k | k in dirty && !(k in form.keys && Touches(patch, k)))
    + (set k | k in form.keys && Touches(patch, k) && !SameKey(form, k, next, baseline))
  }

  /** getNextDirtyFields: one pass over the keys, on a copy of the set. */
  method GetNextDirtyFields<V(==)>(form: Form<V>, current: set<string>, patch: map<string, V>, next: Values<V>, baseline: Values<V>)
    returns (dirty: set<string>)
    ensures dirty == NextDirty(form, current, patch, next, baseline)
  {
    dirty := current;
    for i := 0 to |form.keys|
      invariant forall k :: k in dirty <==>
        if k in form.keys[..i] && Touches(patch, k) then !SameKey(form, k, next, baseline) else k in current
    {
      var key := form.keys[i];
      if Touches(patch, key) {
        if SameKey(form, key, next, baseline) {
          dirty := dirty - {key};
        } else {
          dirty := dirty + {key};
        }
      }
    }
  }

  datatype State<!V> = State(nameEdited: bool, visual: Values<V>, baseline: Values<V>, dirty: set<string>, parseFailed: bool)

  datatype Action<!V> =
    | LoadSuccess(values: Values<V>)
    | LoadError
    | SetValues(patch: map<string, V>)
    | CommitApiKeys(text: V)

  const NAME_FIELD := "eventNotificationInstanceName"

  function Initial<V>(defaults: Values<V>): State<V> {
    State(false, defaults, defaults, {}, false)
  }

  /** visualConfigReducer. */
  function Reduce<V(==)>(form: Form<V>, s: State<V>, action: Action<V>): State<V> {
    match action
    case LoadSuccess(values) => State(false, values, values, {}, false)
    case LoadError => s.(parseFailed := true)
    case SetValues(patch) =>
      var next := Merge(s.visual, patch);
      s.(nameEdited := s.nameEdited || NAME_FIELD in patch, visual := next,
         dirty := NextDirty(form, s.dirty, patch, next, s.baseline))
    case CommitApiKeys(text) =>
      var patch := map[API_KEYS_TEXT := text];
      s.(visual := Merge(s.visual, patch), baseline := Merge(s.baseline, patch), dirty := s.dirty - {API_KEYS_TEXT})
  }

  function RunActions<V(==)>(form: Form<V>, defaults: Values<V>, actions: seq<Action<V>>): State<V> {
    if |actions| == 0 then Initial(defaults)
    else Reduce(form, RunActions(form, defaults, actions[..|actions| - 1]), actions[|actions| - 1])
  }

  ghost predicate Tracks<V>(form: Form<V>, s: State<V>) {
    && (forall k | k in s.dirty :: k in form.keys)
    && forall k | k in form.keys :: k in s.dirty <==> !SameKey(form, k, s.visual, s.baseline)
  }

  lemma ReduceTracks<V(!new)>(form: Form<V>, s: State<V>, action: Action<V>)
    requires WellFormed(form) && Tracks(form, s)
    ensures Tracks(form, Reduce(form, s, action))
  {
    var t := Reduce(form, s, action);
    forall k | k in form.keys ensures k in t.dirty <==> !SameKey(form, k, t.visual, t.baseline) {
      if action.SetValues? && !Touches(action.patch, k) {
        assert t.visual(k) == s.visual(k);
        assert k == SECRET_KEY ==> t.visual(SECRET_KEY_ACTION) == s.visual(SECRET_KEY_ACTION);
      }
      if action.CommitApiKeys? && k != API_KEYS_TEXT {
        assert t.visual(k) == s.visual(k) && t.baseline(k) == s.baseline(k);
        assert t.visual(SECRET_KEY_ACTION) == s.visual(SECRET_KEY_ACTION);
      }
    }
  }

  /** After any actions, the keys to save are those whose values differ from the baseline. */
  lemma {:induction false} DirtyIsDifference<V(!new)>(form: Form<V>, defaults: Values<V>, actions: seq<Action<V>>)
    requires WellFormed(form)
    ensures Tracks(form, RunActions(form, defaults, actions))
  {
    if |actions| > 0 {
      DirtyIsDifference(form, defaults, actions[..|actions| - 1]);
      ReduceTracks(form, RunActions(form, defaults, actions[..|actions| - 1]), actions[|actions| - 1]);
    }
  }

  /** The baseline, told without the state: the last loaded values with the keys committed since. */
  function Saved<V>(defaults: Values<V>, actions: seq<Action<V>>): Values<V> {
    if |actions| == 0 then defaults
    else
      var n := |actions| - 1;
      match actions[n]
      case LoadSuccess(values) => values
      case CommitApiKeys(text) => Merge(Saved(defaults, actions[..n]), map[API_KEYS_TEXT := text])
      case _ => Saved(defaults, actions[..n])
  }

  /** What the user entered since the last load, the latest entry of each field. */
  function Entered<V>(actions: seq<Action<V>>): map<string, V> {
    if |actions| == 0 then map[]
    else
      var n := |actions| - 1;
      match actions[n]
      case LoadSuccess(_) => map[]
      case LoadError => Entered(actions[..n])
      case SetValues(patch) => Entered(actions[..n]) + patch
      case CommitApiKeys(text) => Entered(actions[..n])[API_KEYS_TEXT := text]
  }

  /** The values of the last load, before any commit. */
  function LastLoaded<V>(defaults: Values<V>, actions: seq<Action<V>>): Values<V> {
    if |actions| == 0 then defaults
    else
      var n := |actions| - 1;
      if actions[n].LoadSuccess? then actions[n].values else LastLoaded(defaults, actions[..n])
  }

  lemma {:induction false} StateTold<V(!new)>(form: Form<V>, defaults: Values<V>, actions: seq<Action<V>>, field: string)
    ensures var s := RunActions(form, defaults, actions);
      && s.baseline(field) == Saved(defaults, actions)(field)
      && s.visual(field) == Merge(LastLoaded(defaults, actions), Entered(actions))(field)
  {
    if |actions| > 0 { StateTold(form, defaults, actions[..|actions| - 1], field); }
  }

  /**
    What a save writes depends on nothing but the latest entry of each field:
    a key is saved exactly when what was entered last, or else loaded, differs
    from what was loaded or committed.
   */
  lemma SavedKeysDependOnEntries<V(!new)>(form: Form<V>, defaults: Values<V>, actions: seq<Action<V>>, key: string)
    requires WellFormed(form)
    ensures key in RunActions(form, defaults, actions).dirty
      <==> key in form.keys
           && !SameKey(form, key, Merge(LastLoaded(defaults, actions), Entered(actions)), Saved(defaults, actions))
  {
    DirtyIsDifference(form, defaults, actions);
    StateTold(form, defaults, actions, key);
    StateTold(form, defaults, actions, SECRET_KEY_ACTION);
  }

  /** Two values of a field differ: lists by their own relation, others if they are not the same. */
  predicate Differ<V(==)>(form: Form<V>, field: string, v: V, w: V) {
    if field in form.lists then !form.sameList(v, w) else v != w
  }

  /** What a field shows: the latest entry since the last load, or the value loaded. */
  function Shown<V>(defaults: Values<V>, actions: seq<Action<V>>, field: string): V {
    if field in Entered(actions) then Entered(actions)[field] else LastLoaded(defaults, actions)(field)
  }

  /** A key is saved exactly when its field, or for the secret key also its action, shows something else than was loaded or committed. */
  lemma SavedExactly<V(!new)>(form: Form<V>, defaults: Values<V>, actions: seq<Action<V>>, key: string)
    requires WellFormed(form)
    ensures var baseline := Saved(defaults, actions);
      key in RunActions(form, defaults, actions).dirty <==>
      && key in form.keys
      && (Differ(form, key, Shown(defaults, actions, key), baseline(key))
          || (key == "rmSecretKey"
              && Differ(form, "rmSecretKeyAction", Shown(defaults, actions, "rmSecretKeyAction"), baseline("rmSecretKeyAction"))))
  {
    SavedKeysDependOnEntries(form, defaults, actions, key);
  }

  ghost predicate NoLoadFrom<V>(actions: seq<Action<V>>, i: nat) {
    forall j | i <= j < |actions| :: !actions[j].LoadSuccess?
  }

  /** The i-th action entered the name, and no load undid it. */
  ghost predicate NameEnteredAt<V>(actions: seq<Action<V>>, i: nat) {
    i < |actions| && actions[i].SetValues? && "eventNotificationInstanceName" in actions[i].patch && NoLoadFrom(actions, i)
  }

  /** The i-th action was a load that failed, and none has succeeded since. */
  ghost predicate LoadFailedAt<V>(actions: seq<Action<V>>, i: nat) {
    i < |actions| && actions[i].LoadError? && NoLoadFrom(actions, i)
  }

  lemma LaterAction<V>(actions: seq<Action<V>>, i: nat)
    requires i < |actions| - 1
    ensures var front, loads := actions[..|actions| - 1], actions[|actions| - 1].LoadSuccess?;
      && (NameEnteredAt(actions, i) <==> NameEnteredAt(front, i) && !loads)
      && (LoadFailedAt(actions, i) <==> LoadFailedAt(front, i) && !loads)
  {
    assert NoLoadFrom(actions, i) <==> NoLoadFrom(actions[..|actions| - 1], i) && !actions[|actions| - 1].LoadSuccess?;
  }

  /** The two flags: the name was entered, and a load failed, with no successful load since. */
  lemma {:induction false} FlagsTold<V(!new)>(form: Form<V>, defaults: Values<V>, actions: seq<Action<V>>)
    ensures var s := RunActions(form, defaults, actions);
      && (s.nameEdited <==> exists i: nat :: NameEnteredAt(actions, i))
      && (s.parseFailed <==> exists i: nat :: LoadFailedAt(actions, i))
  {
    hide NextDirty, Merge;
    if |actions| > 0 {
      var n := |actions| - 1;
      FlagsTold(form, defaults, actions[..n]);
      hide NameEnteredAt, LoadFailedAt;
      forall i: nat | i < n
        ensures NameEnteredAt(actions, i) <==> NameEnteredAt(actions[..n], i) && !actions[n].LoadSuccess?
        ensures LoadFailedAt(actions, i) <==> LoadFailedAt(actions[..n], i) && !actions[n].LoadSuccess?
      {
        LaterAction(actions, i);
      }
      LastAction(actions);
    }
  }

  lemma LastAction<V>(actions: seq<Action<V>>)
    requires |actions| > 0
    ensures var n := |actions| - 1;
      && (NameEnteredAt(actions, n) <==> actions[n].SetValues? && NAME_FIELD in actions[n].patch)
      && (LoadFailedAt(actions, n) <==> actions[n].LoadError?)
      && (forall i: nat | i > n :: !NameEnteredAt(actions, i) && !LoadFailedAt(actions, i))
      && (forall i: nat | i >= n :: !NameEnteredAt(actions[..n], i) && !LoadFailedAt(actions[..n], i))
  {
  }
}
