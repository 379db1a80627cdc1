/**
  When the generated SQL expression computes the Go keys. Go trims all white
  space off its fields where SQLite trims blanks only; the two agree exactly
  when the columns that decide the key trim alike, and so on every row whose
  outer white space is blanks.
 */
module SqlAgreement {
  import opened GoText
  import opened AccountIdentity
  import opened AccountKeys
  import opened SqlIdentity
  import opened SqlEvaluation

  // ----- The two readings of the fields -----

  ghost function GoReading(fields: Fields): Reading {
    var provider := NormalizeProvider(fields.authProvider);
    Reading(StableCodexMember(fields), provider, EffectiveAuthFile(fields), TrimSpace(fields.authIndex),
      if provider == "codex" then "" else TrimSpace(fields.authProjectId), TrimSpace(fields.account), TrimSpace(fields.authLabel))
  }

  /** Go's branches, in their order, choose the identity the SQL clauses choose. */
  lemma GoIdentity(fields: Fields)
    ensures AccountIdentityOf(fields) == IdentityIn(false, GoReading(fields), fields)
    ensures HistoricalIdentityOf(fields) == IdentityIn(true, GoReading(fields), fields)
  {
    hide TrimSpace, TrimBlanks, NormalizeProvider, EffectiveAuthFile, ResolveCodexWorkspace, Lower, IndexOf, Count, FallbackIdentity,
         LegacyIdentity;
    GoFallback(fields, true);
    GoFallback(fields, false);
    LegacyUnmarked(fields);
  }

  lemma LegacyUnmarked(fields: Fields)
    ensures LegacyIdentity(fields).Some? ==> !LegacyIdentity(fields).value.credential
  {
    hide TrimSpace, NormalizeProvider, EffectiveAuthFile;
  }

  ghost function FallbackIn(mark: bool, r: Reading): Option<Identity> {
    FallbackIdentity(mark, r.provider, r.file, r.index, r.projectId, r.account, r.name)
  }

  lemma GoFallback(fields: Fields, mark: bool)
    ensures FallbackIn(mark, GoReading(fields))
         == match LegacyIdentity(fields)
            case Some(id) => Some(id.(credential := mark))
            case None => None
  {
    hide TrimSpace, TrimBlanks, NormalizeProvider, EffectiveAuthFile, StableCodexMember;
  }

  /** A text that both ways of trimming leave the same. */
  ghost predicate Alike(s: string) {
    TrimSpace(s) == TrimBlanks(s)
  }

  // ----- Provider and auth file, column by column -----

  lemma UntrimmedShows(s: string)
    ensures TrimSpace(s) == s <==> LeadingSpace(s) == 0 && TrailingSpace(s) == 0
  {
    TrimSpaceIdempotent(s);
    if LeadingSpace(s) == 0 && TrailingSpace(s) == 0 { TrimSpaceFixed(s); }
  }

  /** Folding keeps white space, so it shows in the folded provider. */
  lemma FoldedShows(v: string)
    ensures var folded := Lower(Replace(v, '_', "-")); TrimSpace(v) == v <==> TrimSpace(folded) == folded
  {
    hide TrimSpace, LeadingSpace, TrailingSpace, Replace;
    ReplaceUnderscores(v);
    WhiteSpaceKept(v, Lower(Replace(v, '_', "-")));
    UntrimmedShows(v);
    UntrimmedShows(Lower(Replace(v, '_', "-")));
  }

  lemma KnownProviders()
    ensures TrimSpace("x-ai") == "x-ai" && TrimSpace("grok") == "grok" && TrimSpace("codex") == "codex"
  {
    hide TrimSpace, TrimBlanks;
    PrintableEnds("x-ai");
    PrintableEnds("grok");
    PrintableEnds("codex");
  }

  /** The provider reads alike exactly when it has no white space at its ends. */
  lemma ProviderAlike(v: string)
    ensures FoldProvider(v) == NormalizeProvider(v) <==> TrimSpace(v) == v
    ensures FoldProvider(v) == "codex" ==> TrimSpace(v) == v
  {
    hide TrimSpace, Lower, Replace;
    FoldedShows(v);
    KnownProviders();
    ProviderTrimmed(v);
  }

  /** The auth file reads alike exactly when the column that decides it does. */
  ghost predicate FileAlike(fields: Fields) {
    if TrimBlanks(fields.authFile) != "" then Alike(fields.authFile)
    else if BlankAuthFile(fields) == "" then true
    else Alike(fields.source) && TrimSpace(fields.source) !in {TrimSpace(fields.account), TrimSpace(fields.authLabel)}
  }

  lemma FileAlikeExactly(fields: Fields)
    ensures FileAlike(fields) <==> EffectiveAuthFile(fields) == BlankAuthFile(fields)
    ensures BlankAuthFile(fields) == "" ==> EffectiveAuthFile(fields) == ""
  {
    hide TrimSpace, TrimBlanks;
    BlanksFirst(fields.authFile);
    BlanksFirst(fields.source);
    BlanksFirst(fields.account);
    BlanksFirst(fields.authLabel);
    AuthFileTidy(fields);
    NothingToTrim();
  }

  /** What Go reads can only be emptier than what SQLite reads. */
  ghost predicate Narrower(s: Reading, g: Reading) {
    && (s.file == "" ==> g.file == "") && (s.index == "" ==> g.index == "")
    && (s.account == "" ==> g.account == "") && (s.name == "" ==> g.name == "")
    && (s.provider != "codex" && s.projectId == "" ==> g.projectId == "")
    && (s.provider == "codex" ==> g.provider == "codex")
    && (s.stable ==> g.stable) && (g.stable && s.provider == "codex" ==> s.stable)
    && (g.stable ==> g.provider == "codex" && s.account != "") && (s.stable ==> s.provider == "codex")
  }

  lemma GoIsNarrower(fields: Fields)
    ensures Narrower(BlankReading(fields), GoReading(fields))
  {
    hide TrimSpace, TrimBlanks, FoldProvider, EffectiveAuthFile, BlankAuthFile, ResolveCodexWorkspace, Lower, IndexOf, Count,
         CodexAccountIdFromSnapshot;
    FileAlikeExactly(fields);
    BlanksFirst(fields.authIndex);
    BlanksFirst(fields.account);
    BlanksFirst(fields.authLabel);
    BlanksFirst(fields.authProjectId);
    ProviderAlike(fields.authProvider);
  }

  // ----- Which columns decide -----

  /** Of the columns that tell rows apart below provider or file, the first one filled reads alike. */
  ghost predicate DetailAlike(s: Reading, g: Reading) {
    if s.projectId != "" then s.projectId == g.projectId
    else if s.account != "" then s.account == g.account
    else s.name == g.name
  }

  /** What the clause that SQLite chooses is built from reads alike. */
  ghost predicate DecidingAlike(historical: bool, s: Reading, g: Reading) {
    if s.stable then historical || (s.file == "" && s.index == "") || (s.file == g.file && s.index == g.index)
    else if s.file != "" && s.index != "" then
      s.file == g.file && s.index == g.index && (s.provider == g.provider || g.provider != "codex" || (historical && !g.stable))
    else if s.file == "" && s.index == "" && (s.provider == "codex" || (s.projectId == "" && s.account == "" && s.name == "")) then true
    else
      && s.provider == g.provider && s.file == g.file && (s.file == "" ==> s.index == g.index)
      && (s.provider != "codex" && (s.file != "" || s.index == "") ==> DetailAlike(s, g))
  }

  /** The identities in two readings are the same exactly when what decides the first reads alike. */
  lemma SameIdentityExactly(historical: bool, s: Reading, g: Reading, fields: Fields)
    requires Narrower(s, g)
    ensures IdentityIn(historical, s, fields) == IdentityIn(historical, g, fields) <==> DecidingAlike(historical, s, g)
  {
    hide Lower, TrimBlanks;
    var a, b := IdentityIn(historical, s, fields), IdentityIn(historical, g, fields);
    if a.Some? && b.Some? && a == b {
      assert a.value.kind == b.value.kind && a.value.parts == b.value.parts;
    }
  }

  /** The same, read off the columns. */
  ghost predicate ColumnsAlike(historical: bool, fields: Fields) {
    var s, codex := BlankReading(fields), FoldProvider(fields.authProvider) == "codex";
    var providerAlike := TrimSpace(fields.authProvider) == fields.authProvider;
    if s.stable then historical || (s.file == "" && s.index == "") || (FileAlike(fields) && Alike(fields.authIndex))
    else if s.file != "" && s.index != "" then
      && FileAlike(fields) && Alike(fields.authIndex)
      && (providerAlike || NormalizeProvider(fields.authProvider) != "codex" || (historical && !StableCodexMember(fields)))
    else if s.file == "" && s.index == "" && (codex || (s.projectId == "" && s.account == "" && s.name == "")) then true
    else
      && providerAlike && FileAlike(fields) && (s.file == "" ==> Alike(fields.authIndex))
      && (!codex && (s.file != "" || s.index == "") ==> Alike(DetailColumn(fields)))
  }

  /** The first of these columns that SQLite finds filled. */
  ghost function DetailColumn(fields: Fields): string {
    if TrimBlanks(fields.authProjectId) != "" then fields.authProjectId
    else if TrimBlanks(fields.account) != "" then fields.account
    else fields.authLabel
  }

  lemma ColumnsAlikeExactly(historical: bool, fields: Fields)
    ensures ColumnsAlike(historical, fields) <==> DecidingAlike(historical, BlankReading(fields), GoReading(fields))
  {
    hide TrimSpace, TrimBlanks, FoldProvider, NormalizeProvider, EffectiveAuthFile, BlankAuthFile, StableCodexMember, BlankStableMember,
         CodexAccountIdFromSnapshot, FileAlike;
    FileAlikeExactly(fields);
    ProviderAlike(fields.authProvider);
  }

  // ----- Keys -----

  /** The expression gives Go's key, and the empty text when Go has none. */
  ghost predicate KeysAgree(row: Row, withoutProject: bool, historical: bool) {
    var fields := FieldsOf(row, withoutProject);
    var go := if historical then HistoricalAccountKey(fields) else AccountKey(fields);
    var sql := Eval(AccountKeyExpression(withoutProject, historical), row);
    && sql.Text?
    && (sql.s == "" <==> go == None)
    && (go.Some? ==> sql.s == go.value)
  }

  lemma KeyTextFacts(identity: Option<Identity>)
    ensures Rendered(identity) == None <==> KeyText(identity) == ""
    ensures Rendered(identity).Some? ==> KeyText(identity) == Rendered(identity).value
  {
    hide HexParts;
  }

  /** The keys agree exactly when the two readings give the same rendering. */
  lemma AgreementIsRendering(row: Row, withoutProject: bool, historical: bool)
    ensures var fields := FieldsOf(row, withoutProject);
            KeysAgree(row, withoutProject, historical)
            <==> Rendered(IdentityIn(historical, BlankReading(fields), fields)) == Rendered(IdentityIn(historical, GoReading(fields), fields))
  {
    hide *;
    var fields := FieldsOf(row, withoutProject);
    EvalAccountKeyExpression(row, withoutProject, historical);
    KeysRenderIdentities(fields);
    GoIdentity(fields);
    var sql, go := IdentityIn(historical, BlankReading(fields), fields), IdentityIn(historical, GoReading(fields), fields);
    KeyTextFacts(sql);
    KeyTextFacts(go);
    AgreementUnfolds(row, withoutProject, historical, KeyText(sql), Rendered(go));
  }

  lemma AgreementUnfolds(row: Row, withoutProject: bool, historical: bool, text: string, go: Option<string>)
    requires Yields(AccountKeyExpression(withoutProject, historical), row, text)
    requires go == if historical then HistoricalAccountKey(FieldsOf(row, withoutProject)) else AccountKey(FieldsOf(row, withoutProject))
    ensures KeysAgree(row, withoutProject, historical) <==> (text == "" <==> go == None) && (go.Some? ==> text == go.value)
  {
    hide Eval, AccountKeyExpression, AccountKey, HistoricalAccountKey, FieldsOf;
  }

  lemma BlankBytes(fields: Fields, historical: bool)
    requires BytesFields(fields)
    ensures var id := IdentityIn(historical, BlankReading(fields), fields); id.Some? ==> AllBytes(id.value.parts)
  {
    hide TrimSpace, TrimBlanks, FoldProvider, Lower, BlankStableMember, CodexAccountIdFromSnapshot;
    TrimmedBytes(fields.authFile);
    TrimmedBytes(fields.source);
    TrimmedBytes(fields.authIndex);
    TrimmedBytes(fields.authAccountId);
    TrimmedBytes(fields.authProjectId);
    TrimmedBytes(fields.account);
    TrimmedBytes(fields.authLabel);
    FoldBytes(fields.authProvider);
  }

  /**
    The exact theorem. The expression computes the Go key exactly when every
    column that the key SQLite finds is built from trims alike, and the
    provider does too where it decides.
   */
  lemma KeysAgreeExactly(row: Row, withoutProject: bool, historical: bool)
    requires CleanRow(row) && BytesFields(FieldsOf(row, withoutProject))
    ensures KeysAgree(row, withoutProject, historical) <==> ColumnsAlike(historical, FieldsOf(row, withoutProject))
  {
    hide *;
    var fields := FieldsOf(row, withoutProject);
    AgreementIsRendering(row, withoutProject, historical);
    BlankBytes(fields, historical);
    IdentityBytes(fields);
    GoIdentity(fields);
    RenderedInjective(IdentityIn(historical, BlankReading(fields), fields), IdentityIn(historical, GoReading(fields), fields));
    GoIsNarrower(fields);
    SameIdentityExactly(historical, BlankReading(fields), GoReading(fields), fields);
    ColumnsAlikeExactly(historical, fields);
  }

  // ----- Plain rows -----

  lemma PlainTrimmed(s: string)
    requires PlainEnds(s)
    ensures Alike(s) && TrimSpace(TrimBlanks(s)) == TrimBlanks(s)
  {
    hide TrimSpace, TrimBlanks, PlainEnds;
    TrimsAgree(s);
    TrimSpaceIdempotent(s);
  }

  lemma PlainReadsAlike(row: Row, withoutProject: bool, historical: bool)
    requires PlainRow(row)
    ensures ColumnsAlike(historical, FieldsOf(row, withoutProject))
  {
    NothingToTrim();
    assert Alike("");
    hide TrimBlanks, TrimSpace, PlainEnds, Stored, Alike, ColumnsAlike;
    PlainTrimmed(Stored(row, AuthFileSnapshot));
    PlainTrimmed(Stored(row, AuthIndexColumn));
    PlainTrimmed(Stored(row, AuthProviderSnapshot));
    PlainTrimmed(Stored(row, ProviderColumn));
    PlainTrimmed(Stored(row, AuthProjectIdSnapshot));
    PlainTrimmed(Stored(row, AccountSnapshot));
    PlainTrimmed(Stored(row, AuthLabelSnapshot));
    PlainTrimmed(Stored(row, Source));
    AllAlike(historical, FieldsOf(row, withoutProject));
  }

  lemma AllAlike(historical: bool, fields: Fields)
    requires Alike(fields.authFile) && Alike(fields.source) && Alike(fields.authIndex) && Alike(fields.account)
    requires Alike(fields.authLabel) && Alike(fields.authProjectId) && TrimSpace(fields.authProvider) == fields.authProvider
    ensures ColumnsAlike(historical, fields)
  {
    assert FileAlike(fields) by { hide TrimSpace, TrimBlanks; }
    hide TrimBlanks, TrimSpace, FileAlike, BlankReading, FoldProvider, NormalizeProvider, StableCodexMember, Alike;
  }

  /**
    On every row whose outer white space is blanks the expression computes the
    Go key, in the normal and in the historical mode, with or without the
    project column; it gives the empty string exactly when Go returns no key.
   */
  lemma SqlMatchesGo(row: Row, withoutProject: bool, historical: bool)
    requires PlainRow(row)
    ensures var fields := FieldsOf(row, withoutProject);
            var go := if historical then HistoricalAccountKey(fields) else AccountKey(fields);
            var sql := Eval(AccountKeyExpression(withoutProject, historical), row);
            && sql.Text?
            && (sql.s == "" <==> go == None)
            && (go.Some? ==> sql.s == go.value)
  {
    assert KeysAgree(row, withoutProject, historical) by {
      hide *;
      var fields := FieldsOf(row, withoutProject);
      AgreementIsRendering(row, withoutProject, historical);
      PlainReadsAlike(row, withoutProject, historical);
      ColumnsAlikeExactly(historical, fields);
      GoIsNarrower(fields);
      SameIdentityExactly(historical, BlankReading(fields), GoReading(fields), fields);
    }
    hide Eval, AccountKeyExpression, AccountKey, HistoricalAccountKey, FieldsOf;
  }

  // ----- Other rows -----

  /** A row with nothing but an auth index of one tab. */
  function TabRow(): Row {
    c => if c == AuthIndexColumn then Some("\t") else None
  }

  /** A row with an auth file, an auth index and a label of one tab. */
  function TabLabelRow(): Row {
    c => if c == AuthFileSnapshot then Some("a") else if c == AuthIndexColumn then Some("b") else if c == AuthLabelSnapshot then Some("\t") else None
  }

  lemma Tabs()
    ensures TrimSpace("") == "" && TrimBlanks("") == "" && TrimSpace("\t") == "" && TrimBlanks("\t") == "\t"
    ensures TrimSpace("a") == TrimBlanks("a") == "a" && TrimSpace("b") == TrimBlanks("b") == "b"
    ensures FoldProvider("") == ""
  {
    hide TrimSpace, TrimBlanks;
    NothingToTrim();
    PrintableEnds("a");
    PrintableEnds("b");
    OneTab();
  }

  lemma OneTab()
    ensures TrimSpace("\t") == "" && TrimBlanks("\t") == "\t"
  {
    hide WideSpace;
    var s := "\t";
    assert LeadingSpace(s) == 1 && s[1..] == "";
    assert TrimSpaceLeft(s[1..]) == "" && TrimSpaceRight("") == "";
  }

  /** Beyond plain rows the keys may differ: SQLite's trim keeps a tab, so the expression yields a key where Go has none. */
  lemma OtherWhiteSpaceDisagrees()
    ensures CleanRow(TabRow()) && AccountKey(FieldsOf(TabRow(), false)) == None && !KeysAgree(TabRow(), false, false)
  {
    var fields := FieldsOf(TabRow(), false);
    hide TrimBlanks, TrimSpace, FoldProvider, Eval, AccountKeyExpression, ResolveCodexWorkspace, NormalizeCodexMemberSnapshot,
         EncodeKey, EncodeCodexKey, CodexAccountIdFromSnapshot;
    Tabs();
    assert fields == Fields("", "\t", "", "", "", "", "", "");
    KeysAgreeExactly(TabRow(), false, false);
  }

  /** And they need not: a column that decides nothing may read either way. */
  lemma OtherWhiteSpaceMayAgree(historical: bool)
    ensures CleanRow(TabLabelRow()) && !PlainRow(TabLabelRow()) && KeysAgree(TabLabelRow(), false, historical)
  {
    var row, fields := TabLabelRow(), FieldsOf(TabLabelRow(), false);
    hide TrimBlanks, TrimSpace, FoldProvider, Eval, AccountKeyExpression, ResolveCodexWorkspace, NormalizeCodexMemberSnapshot,
         CodexAccountIdFromSnapshot, KeysAgree;
    Tabs();
    assert fields == Fields("a", "b", "", "", "", "", "\t", "");
    assert Stored(row, AuthLabelSnapshot) == "\t";
    KeysAgreeExactly(row, false, historical);
  }
}
