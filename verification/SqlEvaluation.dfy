/**
  What the generated SQL expression evaluates to, for every row: the key of the
  identity that its clauses find in the fields as SQLite reads them, which is
  with blanks trimmed off and nothing else.
 */
module SqlEvaluation {
  import opened GoText
  import opened AccountIdentity
  import AccountKeys
  import opened SqlIdentity

  // ----- Character functions on ASCII text -----

  ghost predicate SingleByte(s: string) {
    forall i | 0 <= i < |s| :: s[i] as int < 0xC0
  }

  lemma {:induction false} SingleByteChars(s: string, c: char)
    requires SingleByte(s)
    ensures CharCount(s) == |s|
    ensures CharPosition(s, c) == if IndexOf(s, c) < |s| then IndexOf(s, c) + 1 else 0
  {
    if |s| > 0 {
      assert SkipChar(s) == s[1..];
      SingleByteChars(s[1..], c);
    }
  }

  lemma {:induction false} DropSingleByte(p: string, s: string)
    requires SingleByte(p)
    ensures DropChars(p + s, |p|) == s
  {
    if |p| > 0 {
      assert (p + s)[1..] == p[1..] + s;
      assert SkipChar(p + s) == p[1..] + s;
      DropSingleByte(p[1..], s);
    } else {
      assert p + s == s;
    }
  }

  /** substr(s, 1, length(p)) = p tests for the prefix p. */
  lemma PrefixTest(p: string, s: string)
    requires SingleByte(p)
    ensures TakeChars(s, |p|) == p <==> p <= s
    ensures p <= s ==> DropChars(s, |p|) == s[|p|..]
  {
    if p <= s {
      assert s == p + s[|p|..];
      DropSingleByte(p, s[|p|..]);
    }
  }

  lemma MarkerLength()
    ensures SingleByte(MARKER) && CharCount(MARKER) == |MARKER| == 20
  {
    hide CharCount, CharPosition, IndexOf;
    SingleByteChars(MARKER, ':');
  }

  // ----- The pieces -----

  ghost predicate Yields(e: Expr, row: Row, s: string) {
    Eval(e, row) == Text(s)
  }

  ghost predicate Holds(e: Expr, row: Row, b: bool) {
    Eval(e, row) == Truth(b)
  }

  // One evaluation step of each operator. The lemmas after these hide Eval and combine the steps.

  lemma EvalLit(text: string, row: Row)
    ensures Yields(Lit(text), row, text)
  {
  }

  lemma EvalNum(n: int, row: Row)
    ensures Eval(Num(n), row) == Int(n)
  {
  }

  lemma EvalUnary(op: UnaryOp, e: Expr, row: Row, s: string)
    requires Yields(e, row, s)
    ensures Eval(Unary(op, e), row) == OnText(op, s)
  {
    hide OnText, OnTwo;
  }

  lemma EvalBinary(op: BinaryOp, a: Expr, b: Expr, row: Row)
    ensures Eval(Binary(op, a, b), row) == OnTwo(op, Eval(a, row), Eval(b, row))
  {
    hide OnOne, OnTwo;
  }

  lemma EvalTrim(e: Expr, row: Row, s: string)
    requires Yields(e, row, s)
    ensures Yields(Trim(e), row, TrimBlanks(s))
  {
    hide Eval, TrimBlanks;
    EvalUnary(TrimOp, e, row, s);
  }

  lemma EvalLower(e: Expr, row: Row, s: string)
    requires Yields(e, row, s)
    ensures Yields(LowerOf(e), row, Lower(s))
  {
    hide Eval, Lower;
    EvalUnary(LowerOp, e, row, s);
  }

  lemma EvalReplace(e: Expr, from: char, to: string, row: Row, s: string)
    requires Yields(e, row, s)
    ensures Yields(ReplaceIn(e, from, to), row, Replace(s, from, to))
  {
    hide Eval, Replace;
    EvalUnary(ReplaceOp(from, to), e, row, s);
  }

  lemma EvalLength(e: Expr, row: Row, s: string)
    requires Yields(e, row, s)
    ensures Eval(Length(e), row) == Int(CharCount(s))
  {
    hide Eval, CharCount;
    EvalUnary(LengthOp, e, row, s);
  }

  lemma EvalByteLength(e: Expr, row: Row, s: string)
    requires Yields(e, row, s)
    ensures Eval(Length(CastBlob(e)), row) == Int(|s|)
  {
    EvalUnary(BlobOp, e, row, s);
    hide OnTwo, CharCount;
    assert Eval(CastBlob(e), row) == Blob(s);
  }

  lemma EvalInstr(e: Expr, c: char, row: Row, s: string)
    requires Yields(e, row, s)
    ensures Eval(Instr(e, c), row) == Int(CharPosition(s, c))
  {
    hide Eval, CharPosition;
    EvalUnary(InstrOp(c), e, row, s);
  }

  lemma EvalGlob(e: Expr, lo: char, hi: char, row: Row, s: string)
    requires Yields(e, row, s)
    ensures Holds(OnlyGlob(e, lo, hi), row, Within(s, lo, hi))
  {
    hide Eval, Within;
    EvalUnary(OnlyGlobOp(lo, hi), e, row, s);
  }

  lemma EvalHex(e: Expr, row: Row, s: string)
    requires Yields(e, row, s)
    ensures Yields(HexOf(e), row, Hex(s))
  {
    hide Eval, Hex;
    EvalUnary(HexOp, e, row, s);
  }

  lemma EvalConcat(a: Expr, b: Expr, row: Row, s: string, t: string)
    requires Yields(a, row, s) && Yields(b, row, t)
    ensures Yields(Concat(a, b), row, s + t)
  {
    hide Eval;
    EvalBinary(ConcatOp, a, b, row);
  }

  lemma EvalCoalesce(a: Expr, b: Expr, row: Row, v: Value, w: Value)
    requires Eval(a, row) == v && Eval(b, row) == w
    ensures Eval(Coalesce(a, b), row) == if v.Null? then w else v
    ensures Eval(NullIf(a, b), row) == if v == w then Null else v
  {
    hide Eval;
    EvalBinary(CoalesceOp, a, b, row);
    EvalBinary(NullIfOp, a, b, row);
  }

  lemma EvalIntegers(a: Expr, b: Expr, row: Row, i: int, j: int)
    requires Eval(a, row) == Int(i) && Eval(b, row) == Int(j)
    ensures Eval(Add(a, b), row) == Int(i + j) && Eval(Sub(a, b), row) == Int(i - j)
    ensures Holds(Gt(a, b), row, i > j) && Holds(Eq(a, b), row, i == j)
  {
    hide Eval;
    EvalBinary(AddOp, a, b, row);
    EvalBinary(SubOp, a, b, row);
    EvalBinary(GtOp, a, b, row);
    EvalBinary(EqOp, a, b, row);
  }

  lemma EvalSubstr(e: Expr, start: Expr, row: Row, s: string, i: int)
    requires Yields(e, row, s) && Eval(start, row) == Int(i)
    ensures Yields(Substr(e, start), row, DropChars(s, i - 1))
  {
    hide Eval, DropChars;
    EvalBinary(SubstrOp, e, start, row);
  }

  lemma EvalSubstrLen(e: Expr, start: Expr, len: Expr, row: Row, s: string, i: int, n: int)
    requires Yields(e, row, s) && Eval(start, row) == Int(i) && Eval(len, row) == Int(n)
    ensures Yields(SubstrLen(e, start, len), row, TakeChars(DropChars(s, i - 1), n))
  {
    hide Eval, DropChars, TakeChars;
    EvalSubstr(e, start, row, s, i);
    EvalBinary(PrefixOp, Substr(e, start), len, row);
  }

  lemma EvalEq(a: Expr, b: Expr, row: Row, x: string, y: string)
    requires Yields(a, row, x) && Yields(b, row, y)
    ensures Holds(Eq(a, b), row, x == y)
    ensures Holds(Ne(a, b), row, x != y)
  {
    hide Eval;
    EvalBinary(EqOp, a, b, row);
    EvalBinary(NeOp, a, b, row);
  }

  /** The `= 0` of the generated text negates a condition. */
  lemma EvalNot(e: Expr, row: Row, b: bool)
    requires Holds(e, row, b)
    ensures Holds(Eq(e, Num(0)), row, !b)
  {
    EvalNum(0, row);
    hide Eval;
    EvalBinary(EqOp, e, Num(0), row);
  }

  lemma EvalCase(cond: Expr, yes: Expr, no: Expr, row: Row, b: bool)
    requires Holds(cond, row, b)
    ensures Eval(Case(cond, yes, no), row) == if b then Eval(yes, row) else Eval(no, row)
  {
    hide OnOne, OnTwo;
  }

  lemma EvalAnd(a: Expr, b: Expr, row: Row, x: bool, y: bool)
    requires Holds(a, row, x) && Holds(b, row, y)
    ensures Holds(And(a, b), row, x && y) && Holds(Or(a, b), row, x || y)
  {
    hide Eval;
    EvalBinary(AndOp, a, b, row);
    EvalBinary(OrOp, a, b, row);
  }

  lemma EvalColumn(row: Row, c: Column)
    ensures Yields(Coalesce(Col(c), Lit("")), row, Stored(row, c))
  {
    EvalLit("", row);
  }

  lemma EvalTrimmed(row: Row, c: Column)
    ensures Yields(Trimmed(c), row, TrimBlanks(Stored(row, c)))
  {
    hide Eval, TrimBlanks, Stored;
    EvalColumn(row, c);
    EvalTrim(Coalesce(Col(c), Lit("")), row, Stored(row, c));
  }

  lemma EvalFilled(e: Expr, row: Row, s: string)
    requires Yields(e, row, s)
    ensures Holds(Filled(e), row, s != "")
  {
    EvalLit("", row);
    hide Eval;
    EvalEq(e, Lit(""), row, s, "");
  }

  lemma EvalProviderSource(row: Row, withoutProject: bool)
    ensures Yields(ProviderSource(), row, FieldsOf(row, withoutProject).authProvider)
  {
    hide Eval, TrimBlanks, Stored, Trimmed;
    var snapshot, event := TrimBlanks(Stored(row, AuthProviderSnapshot)), TrimBlanks(Stored(row, ProviderColumn));
    EvalTrimmed(row, AuthProviderSnapshot);
    EvalTrimmed(row, ProviderColumn);
    EvalLit("", row);
    EvalCoalesce(Trimmed(AuthProviderSnapshot), Lit(""), row, Text(snapshot), Text(""));
    EvalCoalesce(Trimmed(ProviderColumn), Lit(""), row, Text(event), Text(""));
    EvalCoalesce(NullIf(Trimmed(AuthProviderSnapshot), Lit("")), Coalesce(Trimmed(ProviderColumn), Lit("")), row,
      if snapshot == "" then Null else Text(snapshot), Text(event));
  }

  lemma EvalProvider(row: Row, withoutProject: bool)
    ensures Yields(ProviderNormalized(), row, FoldProvider(FieldsOf(row, withoutProject).authProvider))
  {
    hide Eval, TrimBlanks, Lower, Replace, Stored, ProviderSource, FieldsOf;
    var provider := FieldsOf(row, withoutProject).authProvider;
    EvalProviderSource(row, withoutProject);
    var folded := Lower(Replace(provider, '_', "-"));
    EvalReplace(ProviderSource(), '_', "-", row, provider);
    EvalLower(ReplaceIn(ProviderSource(), '_', "-"), row, Replace(provider, '_', "-"));
    EvalLit("grok", row);
    EvalLit("x-ai", row);
    EvalLit("xai", row);
    EvalEq(ProviderFolded(), Lit("grok"), row, folded, "grok");
    EvalEq(ProviderFolded(), Lit("x-ai"), row, folded, "x-ai");
    EvalCase(Eq(ProviderFolded(), Lit("grok")), Lit("xai"), ProviderFolded(), row, folded == "grok");
    EvalCase(Eq(ProviderFolded(), Lit("x-ai")), Lit("xai"),
      Case(Eq(ProviderFolded(), Lit("grok")), Lit("xai"), ProviderFolded()), row, folded == "x-ai");
  }

  /** The effective auth file as SQLite reads the columns. */
  ghost function BlankAuthFile(fields: Fields): string {
    var authFile, source := TrimBlanks(fields.authFile), TrimBlanks(fields.source);
    if authFile != "" then authFile
    else if source == "" || source == TrimBlanks(fields.account) || source == TrimBlanks(fields.authLabel) then ""
    else source
  }

  lemma EvalAuthFile(row: Row, withoutProject: bool)
    ensures Yields(AuthFile(), row, BlankAuthFile(FieldsOf(row, withoutProject)))
  {
    hide Eval, TrimBlanks, Trimmed, Stored;
    EvalTrimmed(row, AuthFileSnapshot);
    EvalTrimmed(row, Source);
    EvalTrimmed(row, AccountSnapshot);
    EvalTrimmed(row, AuthLabelSnapshot);
    var file, source := Trimmed(AuthFileSnapshot), Trimmed(Source);
    var f, s := TrimBlanks(Stored(row, AuthFileSnapshot)), TrimBlanks(Stored(row, Source));
    var a, l := TrimBlanks(Stored(row, AccountSnapshot)), TrimBlanks(Stored(row, AuthLabelSnapshot));
    EvalFilled(source, row, s);
    EvalFilled(file, row, f);
    EvalEq(source, Trimmed(AccountSnapshot), row, s, a);
    EvalEq(source, Trimmed(AuthLabelSnapshot), row, s, l);
    EvalAnd(Filled(source), Ne(source, Trimmed(AccountSnapshot)), row, s != "", s != a);
    var own := And(And(Filled(source), Ne(source, Trimmed(AccountSnapshot))), Ne(source, Trimmed(AuthLabelSnapshot)));
    EvalAnd(And(Filled(source), Ne(source, Trimmed(AccountSnapshot))), Ne(source, Trimmed(AuthLabelSnapshot)), row,
      s != "" && s != a, s != l);
    EvalLit("", row);
    EvalCase(own, source, Lit(""), row, s != "" && s != a && s != l);
    EvalCase(Filled(file), file, Case(own, source, Lit("")), row, f != "");
  }

  /** What the project expression yields in either mode. */
  ghost function ProjectText(row: Row, withoutProject: bool): string {
    TrimBlanks(FieldsOf(row, withoutProject).authProjectId)
  }

  lemma EvalProject(row: Row, withoutProject: bool)
    ensures Yields(ProjectId(withoutProject), row, ProjectText(row, withoutProject))
  {
    EvalLit("", row);
    hide Eval;
    EvalTrimmed(row, AuthProjectIdSnapshot);
  }

  lemma EvalMarker(project: Expr, row: Row, p: string)
    requires Yields(project, row, p)
    ensures Holds(MarkerPresent(project), row, MARKER <= p)
    ensures Yields(LegacyMarkerAccountId(project), row, if MARKER <= p then TrimBlanks(p[|MARKER|..]) else "")
  {
    hide Eval, TrimBlanks, CharCount, TakeChars, DropChars;
    MarkerLength();
    PrefixTest(MARKER, p);
    DropNothing(p);
    EvalLit(MARKER, row);
    EvalLit("", row);
    EvalNum(1, row);
    var n := Length(Lit(MARKER));
    EvalLength(Lit(MARKER), row, MARKER);
    EvalSubstrLen(project, Num(1), n, row, p, 1, 20);
    EvalIntegers(n, Num(1), row, 20, 1);
    EvalSubstr(project, Add(n, Num(1)), row, p, 21);
    EvalEq(SubstrLen(project, Num(1), n), Lit(MARKER), row, TakeChars(p, 20), MARKER);
    EvalTrim(Substr(project, Add(n, Num(1))), row, DropChars(p, 20));
    EvalCase(MarkerPresent(project), Trim(Substr(project, Add(n, Num(1)))), Lit(""), row, MARKER <= p);
  }

  lemma DropNothing(p: string)
    ensures DropChars(p, 0) == p
  {
  }

  lemma EvalWorkspaceValid(project: Expr, row: Row, p: string, direct: string)
    requires Yields(project, row, p) && Yields(Trimmed(AuthAccountIdSnapshot), row, direct)
    ensures var marked := MARKER <= p;
            var id := if marked then TrimBlanks(p[|MARKER|..]) else "";
            Holds(WorkspaceValid(project), row, (!marked || id != "") && (direct == "" || !marked || direct == id))
  {
    hide Eval, TrimBlanks, MarkerPresent, LegacyMarkerAccountId, Trimmed, Yields, Holds;
    EvalMarker(project, row, p);
    var marked := MARKER <= p;
    var id := if marked then TrimBlanks(p[|MARKER|..]) else "";
    var m, l, t := MarkerPresent(project), LegacyMarkerAccountId(project), Trimmed(AuthAccountIdSnapshot);
    EvalNot(m, row, marked);
    EvalFilled(l, row, id);
    EvalAnd(Eq(m, Num(0)), Filled(l), row, !marked, id != "");
    EvalFilled(t, row, direct);
    EvalNot(Filled(t), row, direct != "");
    EvalAnd(Eq(Filled(t), Num(0)), Eq(m, Num(0)), row, direct == "", !marked);
    EvalEq(t, l, row, direct, id);
    EvalAnd(Or(Eq(Filled(t), Num(0)), Eq(m, Num(0))), Eq(t, l), row, direct == "" || !marked, direct == id);
    EvalAnd(Or(Eq(m, Num(0)), Filled(l)), Or(Or(Eq(Filled(t), Num(0)), Eq(m, Num(0))), Eq(t, l)), row,
      !marked || id != "", direct == "" || !marked || direct == id);
  }

  lemma EvalPrintable(e: Expr, row: Row, s: string)
    requires Yields(e, row, s)
    ensures Holds(PrintableAscii(e), row, s != "" && CharCount(s) == |s| && forall i | 0 <= i < |s| :: Printable(s[i]))
  {
    hide Eval, CharCount, Yields, Holds;
    EvalLength(e, row, s);
    EvalByteLength(e, row, s);
    EvalIntegers(Length(e), Length(CastBlob(e)), row, CharCount(s), |s|);
    EvalFilled(e, row, s);
    EvalAnd(Filled(e), Eq(Length(e), Length(CastBlob(e))), row, s != "", CharCount(s) == |s|);
    EvalGlob(e, '!', '~', row, s);
    var printable := forall i | 0 <= i < |s| :: '!' <= s[i] <= '~';
    EvalAnd(And(Filled(e), Eq(Length(e), Length(CastBlob(e)))), OnlyGlob(e, '!', '~'), row,
      s != "" && CharCount(s) == |s|, printable);
    assert printable == forall i | 0 <= i < |s| :: Printable(s[i]);
  }

  lemma EvalEmailShaped(e: Expr, row: Row, s: string)
    requires Yields(e, row, s)
    ensures Holds(EmailShaped(e), row,
              CharPosition(s, '@') > 1 && CharCount(s) > CharPosition(s, '@')
              && CharCount(s) - CharCount(Replace(s, '@', "")) == 1)
  {
    hide Eval, CharCount, CharPosition, Replace, Yields, Holds;
    var at: int, n: int, m: int := CharPosition(s, '@'), CharCount(s), CharCount(Replace(s, '@', ""));
    var rest := ReplaceIn(e, '@', "");
    EvalInstr(e, '@', row, s);
    EvalLength(e, row, s);
    EvalReplace(e, '@', "", row, s);
    EvalLength(rest, row, Replace(s, '@', ""));
    EvalNum(1, row);
    EvalIntegers(Length(e), Length(rest), row, n, m);
    EvalIntegers(Sub(Length(e), Length(rest)), Num(1), row, n - m, 1);
    EvalIntegers(Instr(e, '@'), Num(1), row, at, 1);
    EvalIntegers(Length(e), Instr(e, '@'), row, n, at);
    EvalAnd(Gt(Instr(e, '@'), Num(1)), Gt(Length(e), Instr(e, '@')), row, at > 1, n > at);
    EvalAnd(And(Gt(Instr(e, '@'), Num(1)), Gt(Length(e), Instr(e, '@'))),
      Eq(Sub(Length(e), Length(rest)), Num(1)), row, at > 1 && n > at, n - m == 1);
  }

  lemma {:induction false} LowerKeepsAt(s: string)
    ensures IndexOf(Lower(s), '@') == IndexOf(s, '@') && Count(Lower(s), '@') == Count(s, '@')
  {
    if |s| > 0 {
      assert Lower(s)[1..] == Lower(s[1..]);
      LowerKeepsAt(s[1..]);
    }
  }

  lemma {:induction false} ReplaceSingleByte(s: string, c: char)
    requires SingleByte(s)
    ensures SingleByte(Replace(s, c, ""))
  {
    if |s| > 0 { ReplaceSingleByte(s[1..], c); }
  }

  /** The two SQL tests together accept exactly the members Go accepts. */
  lemma MemberTests(account: string)
    ensures var s := TrimBlanks(account);
            var m := Lower(s);
            (s != "" && CharCount(s) == |s| && (forall i | 0 <= i < |s| :: Printable(s[i]))
             && CharPosition(m, '@') > 1 && CharCount(m) > CharPosition(m, '@')
             && CharCount(m) - CharCount(Replace(m, '@', "")) == 1)
            <==> NormalizeCodexMemberSnapshot(account).Some?
  {
    hide TrimBlanks, Lower, Replace, CharCount, CharPosition, IndexOf, Count;
    var s := TrimBlanks(account);
    var m := Lower(s);
    if forall i | 0 <= i < |s| :: Printable(s[i]) {
      SingleByteChars(s, '@');
      SingleByteChars(m, '@');
      ReplaceSingleByte(m, '@');
      SingleByteChars(Replace(m, '@', ""), '@');
      RemovingCounts(m, '@');
      CountFindsFirst(m, '@');
      LowerKeepsAt(s);
    }
  }

  /** Go's condition for a Codex member, with the provider as SQLite reads it; the rest is trimmed of blanks in both. */
  ghost predicate BlankStableMember(fields: Fields) {
    && FoldProvider(fields.authProvider) == "codex"
    && TrimBlanks(fields.authAccountId) != ""
    && ResolveCodexWorkspace(fields).Some?
    && NormalizeCodexMemberSnapshot(fields.account).Some?
  }

  lemma EvalCodexMemberValid(row: Row, withoutProject: bool)
    ensures Holds(CodexMemberValid(ProjectId(withoutProject)), row, BlankStableMember(FieldsOf(row, withoutProject)))
  {
    var fields, project := FieldsOf(row, withoutProject), ProjectId(withoutProject);
    var p, direct := ProjectText(row, withoutProject), TrimBlanks(fields.authAccountId);
    var account := TrimBlanks(fields.account);
    hide Eval, TrimBlanks, Yields, Holds, FoldProvider, NormalizeCodexMemberSnapshot, Lower, CharCount,
         CharPosition, Replace, MarkerPresent, LegacyMarkerAccountId, ProviderNormalized, Trimmed, WorkspaceValid, ProjectId;
    var marked := MARKER <= p;
    var id := if marked then TrimBlanks(p[|MARKER|..]) else "";
    EvalProject(row, withoutProject);
    EvalTrimmed(row, AuthAccountIdSnapshot);
    EvalTrimmed(row, AccountSnapshot);
    EvalWorkspaceValid(project, row, p, direct);
    var provider := FoldProvider(fields.authProvider);
    EvalProvider(row, withoutProject);
    EvalLit("codex", row);
    EvalEq(ProviderNormalized(), Lit("codex"), row, provider, "codex");
    EvalFilled(Trimmed(AuthAccountIdSnapshot), row, direct);
    EvalMember(row, account);
    MemberTests(fields.account);
    var member := NormalizeCodexMemberSnapshot(fields.account).Some?;
    var tests := And(PrintableAscii(Trimmed(AccountSnapshot)), EmailShaped(CodexMemberOf()));
    var valid := (!marked || id != "") && (direct == "" || !marked || direct == id);
    EvalAnd(WorkspaceValid(project), tests, row, valid, member);
    EvalAnd(Filled(Trimmed(AuthAccountIdSnapshot)), And(WorkspaceValid(project), tests), row, direct != "", valid && member);
    EvalAnd(Eq(ProviderNormalized(), Lit("codex")), And(Filled(Trimmed(AuthAccountIdSnapshot)), And(WorkspaceValid(project), tests)),
      row, provider == "codex", direct != "" && valid && member);
    WorkspaceTests(fields, p);
  }

  lemma EvalMember(row: Row, account: string)
    requires Yields(Trimmed(AccountSnapshot), row, account)
    ensures Yields(CodexMemberOf(), row, Lower(account))
    ensures var m := Lower(account);
            Holds(And(PrintableAscii(Trimmed(AccountSnapshot)), EmailShaped(CodexMemberOf())), row,
              account != "" && CharCount(account) == |account| && (forall i | 0 <= i < |account| :: Printable(account[i]))
              && CharPosition(m, '@') > 1 && CharCount(m) > CharPosition(m, '@')
              && CharCount(m) - CharCount(Replace(m, '@', "")) == 1)
  {
    hide Eval, CharCount, CharPosition, Replace, Lower, Trimmed, PrintableAscii, EmailShaped, Yields, Holds;
    var m := Lower(account);
    EvalLower(Trimmed(AccountSnapshot), row, account);
    EvalPrintable(Trimmed(AccountSnapshot), row, account);
    EvalEmailShaped(CodexMemberOf(), row, m);
    EvalAnd(PrintableAscii(Trimmed(AccountSnapshot)), EmailShaped(CodexMemberOf()), row,
      account != "" && CharCount(account) == |account| && forall i | 0 <= i < |account| :: Printable(account[i]),
      CharPosition(m, '@') > 1 && CharCount(m) > CharPosition(m, '@')
        && CharCount(m) - CharCount(Replace(m, '@', "")) == 1);
  }

  /** SQL's workspace test is whether Go resolves a workspace, for a direct account id. */
  lemma WorkspaceTests(fields: Fields, p: string)
    requires p == TrimBlanks(fields.authProjectId)
    ensures var marked := MARKER <= p;
            var id := if marked then TrimBlanks(p[|MARKER|..]) else "";
            var direct := TrimBlanks(fields.authAccountId);
            (direct != "" && ResolveCodexWorkspace(fields).Some?)
            == (direct != "" && (!marked || id != "") && (!marked || direct == id))
  {
    hide TrimBlanks;
  }

  /** A Codex row whose project carries a usable marker has no project id. */
  ghost function BlankProjectId(fields: Fields): string {
    if FoldProvider(fields.authProvider) == "codex" && CodexAccountIdFromSnapshot(TrimBlanks(fields.authProjectId)) != ""
    then "" else TrimBlanks(fields.authProjectId)
  }

  lemma EvalLegacyProjectId(row: Row, withoutProject: bool)
    ensures Yields(LegacyProjectId(ProjectId(withoutProject)), row, BlankProjectId(FieldsOf(row, withoutProject)))
  {
    var fields, project := FieldsOf(row, withoutProject), ProjectId(withoutProject);
    hide Eval, TrimBlanks, FoldProvider, ProviderNormalized, Yields, Holds, LegacyMarkerAccountId, ProjectId, FieldsOf;
    var p, provider := ProjectText(row, withoutProject), FoldProvider(fields.authProvider);
    var id := if MARKER <= p then TrimBlanks(p[|MARKER|..]) else "";
    TrimBlanksIdempotent(fields.authProjectId);
    assert CodexAccountIdFromSnapshot(p) == id;
    EvalProject(row, withoutProject);
    EvalMarker(project, row, p);
    EvalProvider(row, withoutProject);
    EvalLit("codex", row);
    EvalLit("", row);
    EvalEq(ProviderNormalized(), Lit("codex"), row, provider, "codex");
    EvalFilled(LegacyMarkerAccountId(project), row, id);
    EvalAnd(Eq(ProviderNormalized(), Lit("codex")), Filled(LegacyMarkerAccountId(project)), row, provider == "codex", id != "");
    EvalCase(And(Eq(ProviderNormalized(), Lit("codex")), Filled(LegacyMarkerAccountId(project))), Lit(""), project, row,
      provider == "codex" && id != "");
    CaseYields(And(Eq(ProviderNormalized(), Lit("codex")), Filled(LegacyMarkerAccountId(project))), Lit(""), project, row,
      provider == "codex" && id != "", "", p);
  }

  lemma CaseYields(cond: Expr, yes: Expr, no: Expr, row: Row, b: bool, s: string, t: string)
    requires Holds(cond, row, b) && Yields(yes, row, s) && Yields(no, row, t)
    ensures Yields(Case(cond, yes, no), row, if b then s else t)
  {
    hide Eval;
    EvalCase(cond, yes, no, row, b);
  }

  // ----- Keys -----

  ghost predicate AllYield(values: seq<Expr>, row: Row, texts: seq<string>) {
    |values| == |texts| && forall i | 0 <= i < |values| :: Yields(values[i], row, texts[i])
  }

  lemma Yield2(a: Expr, b: Expr, row: Row, s: string, t: string)
    requires Yields(a, row, s) && Yields(b, row, t)
    ensures AllYield([a, b], row, [s, t])
  {
  }

  lemma Yield3(a: Expr, b: Expr, c: Expr, row: Row, s: string, t: string, u: string)
    requires Yields(a, row, s) && Yields(b, row, t) && Yields(c, row, u)
    ensures AllYield([a, b, c], row, [s, t, u])
  {
  }

  lemma {:induction false} EvalHexJoined(values: seq<Expr>, row: Row, texts: seq<string>)
    requires |values| > 0 && AllYield(values, row, texts)
    ensures Yields(Concat(Lit(":"), HexJoined(values)), row, HexParts(Verbatim, texts))
  {
    hide Eval, Hex;
    EvalLit(":", row);
    EvalHex(values[0], row, texts[0]);
    if |values| == 1 {
      assert HexParts(Verbatim, texts) == ":" + (Hex(texts[0]) + "");
      assert Hex(texts[0]) + "" == Hex(texts[0]);
      EvalConcat(Lit(":"), HexOf(values[0]), row, ":", Hex(texts[0]));
    } else {
      var rest := HexParts(Verbatim, texts[1..]);
      EvalHexJoined(values[1..], row, texts[1..]);
      EvalConcat(HexOf(values[0]), Concat(Lit(":"), HexJoined(values[1..])), row, Hex(texts[0]), rest);
      EvalConcat(Lit(":"), HexJoined(values), row, ":", Hex(texts[0]) + rest);
    }
  }

  /** The expression joins the colon to the prefix, the Go code to the component: the text is the same. */
  lemma EvalKey(kind: Kind, values: seq<Expr>, row: Row, texts: seq<string>)
    requires |values| > 0 && AllYield(values, row, texts)
    ensures Yields(KeyExpression(kind, values), row, Render(Identity(false, kind, texts)))
  {
    var head := KEY_PREFIX + ":" + FORMAT_VERSION + ":";
    var prefix := head + KindName(kind);
    var tail := HexParts(Verbatim, texts);
    assert exists h :: tail == ":" + h && Yields(HexJoined(values), row, h) by { JoinedTail(values, row, texts); }
    hide Eval, HexParts, HexJoined, KindName;
    var h :| tail == ":" + h && Yields(HexJoined(values), row, h);
    EvalLit(prefix + ":", row);
    EvalConcat(Lit(prefix + ":"), HexJoined(values), row, prefix + ":", h);
    Associative(prefix, ":", h);
    Associative(head, KindName(kind), tail);
    Associative("", head, KindName(kind) + tail);
  }

  lemma Associative(a: string, b: string, c: string)
    ensures a + b + c == a + (b + c) && "" + b == b
  {
  }

  lemma JoinedTail(values: seq<Expr>, row: Row, texts: seq<string>)
    requires |values| > 0 && AllYield(values, row, texts)
    ensures exists h :: HexParts(Verbatim, texts) == ":" + h && Yields(HexJoined(values), row, h)
  {
    hide Hex;
    var h := Hex(texts[0]) + HexParts(Verbatim, texts[1..]);
    EvalHex(values[0], row, texts[0]);
    if |values| == 1 {
      assert h == Hex(texts[0]);
    } else {
      EvalHexJoined(values[1..], row, texts[1..]);
      EvalConcat(HexOf(values[0]), Concat(Lit(":"), HexJoined(values[1..])), row, Hex(texts[0]), HexParts(Verbatim, texts[1..]));
    }
    assert HexParts(Verbatim, texts) == ":" + h && Yields(HexJoined(values), row, h);
  }

  lemma EvalFallbackKey(historical: bool, kind: Kind, values: seq<Expr>, row: Row, texts: seq<string>, provider: string)
    requires |values| > 0 && AllYield(values, row, texts) && Yields(ProviderNormalized(), row, provider)
    ensures Yields(FallbackKey(historical, kind, values), row,
              Render(Identity(!historical && provider == "codex", kind, texts)))
  {
    EvalKey(kind, values, row, texts);
    hide Eval, ProviderNormalized, KeyExpression, EncodeKeyWithTrim;
    EvalLit("codex", row);
    EvalLit(CREDENTIAL, row);
    EvalLit("", row);
    var codex := Eq(ProviderNormalized(), Lit("codex"));
    EvalEq(ProviderNormalized(), Lit("codex"), row, provider, "codex");
    CaseYields(codex, Lit(CREDENTIAL), Lit(""), row, provider == "codex", CREDENTIAL, "");
    EvalConcat(Case(codex, Lit(CREDENTIAL), Lit("")), KeyExpression(kind, values), row,
      if provider == "codex" then CREDENTIAL else "", Render(Identity(false, kind, texts)));
    var key := EncodeKeyWithTrim(kind, Verbatim, texts);
    assert "" + key == key;
  }

  /** What every piece yields, gathered once for the clauses below. */
  ghost predicate Pieces(row: Row, project: Expr, provider: string, file: string, index: string,
                         projectId: string, account: string, name: string) {
    && Yields(ProviderNormalized(), row, provider) && Yields(AuthFile(), row, file)
    && Yields(Trimmed(AuthIndexColumn), row, index) && Yields(LegacyProjectId(project), row, projectId)
    && Yields(Trimmed(AccountSnapshot), row, account) && Yields(Trimmed(AuthLabelSnapshot), row, name)
  }

  /** The text of an optional identity: empty when there is none. */
  ghost function KeyText(identity: Option<Identity>): string {
    match identity case Some(id) => Render(id) case None => ""
  }

  ghost function FilelessIdentity(mark: bool, provider: string, index: string, projectId: string, account: string, name: string): Option<Identity> {
    var codex := provider == "codex";
    if index != "" then Some(Identity(mark, AuthIndex, [provider, index]))
    else if !codex && projectId != "" then Some(Identity(mark, Project, [provider, projectId]))
    else if !codex && account != "" then Some(Identity(mark, Account, [provider, account]))
    else if !codex && name != "" then Some(Identity(mark, Label, [provider, name]))
    else None
  }

  ghost function NamedIdentity(mark: bool, provider: string, file: string, index: string, projectId: string, account: string, name: string): Option<Identity> {
    if file != "" && provider != "codex" && name != "" then Some(Identity(mark, FileLabel, [file, provider, name]))
    else if file != "" then Some(Identity(mark, File, [file, provider]))
    else FilelessIdentity(mark, provider, index, projectId, account, name)
  }

  ghost function DetailedIdentity(mark: bool, provider: string, file: string, index: string, projectId: string, account: string, name: string): Option<Identity> {
    var codex := provider == "codex";
    if file != "" && !codex && projectId != "" then Some(Identity(mark, FileProject, [file, provider, projectId]))
    else if file != "" && !codex && account != "" then Some(Identity(mark, FileAccount, [file, provider, account]))
    else NamedIdentity(mark, provider, file, index, projectId, account, name)
  }

  ghost function FallbackIdentity(mark: bool, provider: string, file: string, index: string, projectId: string, account: string, name: string): Option<Identity> {
    if file != "" && index != "" then Some(Identity(mark, FileIndex, [file, index]))
    else if provider == "codex" && file != "" then Some(Identity(mark, File, [file, provider]))
    else DetailedIdentity(mark, provider, file, index, projectId, account, name)
  }

  /** One clause of the generated CASE chain: its key when the condition holds, else what the rest yields. */
  lemma EvalClause(historical: bool, cond: Expr, kind: Kind, values: seq<Expr>, rest: Expr, row: Row, b: bool,
                   texts: seq<string>, provider: string, other: string)
    requires |values| > 0 && AllYield(values, row, texts) && Yields(ProviderNormalized(), row, provider)
    requires Holds(cond, row, b) && Yields(rest, row, other)
    ensures Yields(Case(cond, FallbackKey(historical, kind, values), rest), row,
              if b then Render(Identity(!historical && provider == "codex", kind, texts)) else other)
  {
    hide *;
    EvalFallbackKey(historical, kind, values, row, texts, provider);
    CaseYields(cond, FallbackKey(historical, kind, values), rest, row, b,
      Render(Identity(!historical && provider == "codex", kind, texts)), other);
  }

  lemma EvalFilelessKeys(historical: bool, row: Row, project: Expr, provider: string, file: string, index: string,
                         projectId: string, account: string, name: string)
    requires Pieces(row, project, provider, file, index, projectId, account, name)
    ensures var mark := !historical && provider == "codex";
            Yields(FilelessKeys(historical, project), row, KeyText(FilelessIdentity(mark, provider, index, projectId, account, name)))
  {
    hide Eval, Render, ProviderNormalized, LegacyProjectId, Trimmed, FallbackKey, Holds, Yields, AllYield;
    var p, i, l, a, n := ProviderNormalized(), Trimmed(AuthIndexColumn), LegacyProjectId(project),
                         Trimmed(AccountSnapshot), Trimmed(AuthLabelSnapshot);
    var codex, mark := provider == "codex", !historical && provider == "codex";
    EvalLit("codex", row);
    EvalLit("", row);
    EvalEq(p, Lit("codex"), row, provider, "codex");
    EvalFilled(i, row, index);
    EvalFilled(l, row, projectId);
    EvalFilled(a, row, account);
    EvalFilled(n, row, name);
    EvalAnd(NotCodex(), Filled(l), row, !codex, projectId != "");
    EvalAnd(NotCodex(), Filled(a), row, !codex, account != "");
    EvalAnd(NotCodex(), Filled(n), row, !codex, name != "");
    Yield2(p, i, row, provider, index);
    Yield2(p, l, row, provider, projectId);
    Yield2(p, a, row, provider, account);
    Yield2(p, n, row, provider, name);
    var byLabel := Case(And(NotCodex(), Filled(n)), FallbackKey(historical, Label, [p, n]), Lit(""));
    var byAccount := Case(And(NotCodex(), Filled(a)), FallbackKey(historical, Account, [p, a]), byLabel);
    var byProject := Case(And(NotCodex(), Filled(l)), FallbackKey(historical, Project, [p, l]), byAccount);
    var label' := if !codex && name != "" then Render(Identity(mark, Label, [provider, name])) else "";
    var account' := if !codex && account != "" then Render(Identity(mark, Account, [provider, account])) else label';
    var project' := if !codex && projectId != "" then Render(Identity(mark, Project, [provider, projectId])) else account';
    EvalClause(historical, And(NotCodex(), Filled(n)), Label, [p, n], Lit(""), row,
      !codex && name != "", [provider, name], provider, "");
    EvalClause(historical, And(NotCodex(), Filled(a)), Account, [p, a], byLabel, row,
      !codex && account != "", [provider, account], provider, label');
    EvalClause(historical, And(NotCodex(), Filled(l)), Project, [p, l], byAccount, row,
      !codex && projectId != "", [provider, projectId], provider, account');
    EvalClause(historical, Filled(i), AuthIndex, [p, i], byProject, row,
      index != "", [provider, index], provider, project');
  }

  lemma EvalNamedFileKeys(historical: bool, row: Row, project: Expr, provider: string, file: string, index: string,
                          projectId: string, account: string, name: string)
    requires Pieces(row, project, provider, file, index, projectId, account, name)
    ensures var mark := !historical && provider == "codex";
            Yields(NamedFileKeys(historical, project), row,
              KeyText(NamedIdentity(mark, provider, file, index, projectId, account, name)))
  {
    EvalFilelessKeys(historical, row, project, provider, file, index, projectId, account, name);
    hide Eval, Render, ProviderNormalized, AuthFile, LegacyProjectId, Trimmed, FallbackKey, FilelessKeys, Holds, Yields,
         AllYield, FilelessIdentity;
    var p, f, n := ProviderNormalized(), AuthFile(), Trimmed(AuthLabelSnapshot);
    var codex, mark := provider == "codex", !historical && provider == "codex";
    EvalLit("codex", row);
    EvalEq(p, Lit("codex"), row, provider, "codex");
    EvalFilled(f, row, file);
    EvalFilled(n, row, name);
    EvalAnd(NotCodex(), Filled(f), row, !codex, file != "");
    EvalAnd(And(NotCodex(), Filled(f)), Filled(n), row, !codex && file != "", name != "");
    Yield2(f, p, row, file, provider);
    Yield3(f, p, n, row, file, provider, name);
    var fileless := FilelessKeys(historical, project);
    var byFile := Case(Filled(f), FallbackKey(historical, File, [f, p]), fileless);
    var none' := KeyText(FilelessIdentity(mark, provider, index, projectId, account, name));
    var file' := if file != "" then Render(Identity(mark, File, [file, provider])) else none';
    EvalClause(historical, Filled(f), File, [f, p], fileless, row,
      file != "", [file, provider], provider, none');
    EvalClause(historical, And(And(NotCodex(), Filled(f)), Filled(n)), FileLabel, [f, p, n], byFile, row,
      !codex && file != "" && name != "", [file, provider, name], provider, file');
  }

  lemma EvalDetailedFileKeys(historical: bool, row: Row, project: Expr, provider: string, file: string, index: string,
                             projectId: string, account: string, name: string)
    requires Pieces(row, project, provider, file, index, projectId, account, name)
    ensures var mark := !historical && provider == "codex";
            Yields(DetailedFileKeys(historical, project), row,
              KeyText(DetailedIdentity(mark, provider, file, index, projectId, account, name)))
  {
    EvalNamedFileKeys(historical, row, project, provider, file, index, projectId, account, name);
    hide Eval, Render, ProviderNormalized, AuthFile, LegacyProjectId, Trimmed, FallbackKey, NamedFileKeys, Holds, Yields,
         AllYield, NamedIdentity;
    var p, f, l, a := ProviderNormalized(), AuthFile(), LegacyProjectId(project), Trimmed(AccountSnapshot);
    var codex, mark := provider == "codex", !historical && provider == "codex";
    EvalLit("codex", row);
    EvalEq(p, Lit("codex"), row, provider, "codex");
    EvalFilled(f, row, file);
    EvalFilled(l, row, projectId);
    EvalFilled(a, row, account);
    EvalAnd(NotCodex(), Filled(f), row, !codex, file != "");
    EvalAnd(And(NotCodex(), Filled(f)), Filled(l), row, !codex && file != "", projectId != "");
    EvalAnd(And(NotCodex(), Filled(f)), Filled(a), row, !codex && file != "", account != "");
    Yield3(f, p, l, row, file, provider, projectId);
    Yield3(f, p, a, row, file, provider, account);
    var named := NamedFileKeys(historical, project);
    var byAccount := Case(And(And(NotCodex(), Filled(f)), Filled(a)), FallbackKey(historical, FileAccount, [f, p, a]), named);
    var named' := KeyText(NamedIdentity(mark, provider, file, index, projectId, account, name));
    var account' := if !codex && file != "" && account != "" then Render(Identity(mark, FileAccount, [file, provider, account])) else named';
    EvalClause(historical, And(And(NotCodex(), Filled(f)), Filled(a)), FileAccount, [f, p, a], named, row,
      !codex && file != "" && account != "", [file, provider, account], provider, named');
    EvalClause(historical, And(And(NotCodex(), Filled(f)), Filled(l)), FileProject, [f, p, l], byAccount, row,
      !codex && file != "" && projectId != "", [file, provider, projectId], provider, account');
  }

  lemma EvalFallbackPieces(historical: bool, row: Row, project: Expr, provider: string, file: string, index: string,
                           projectId: string, account: string, name: string)
    requires Pieces(row, project, provider, file, index, projectId, account, name)
    ensures var mark := !historical && provider == "codex";
            Yields(FallbackKeys(historical, project), row, KeyText(FallbackIdentity(mark, provider, file, index, projectId, account, name)))
  {
    EvalDetailedFileKeys(historical, row, project, provider, file, index, projectId, account, name);
    hide Eval, Render, ProviderNormalized, AuthFile, LegacyProjectId, Trimmed, FallbackKey, DetailedFileKeys, Holds, Yields, AllYield, DetailedIdentity;
    var p, f, i := ProviderNormalized(), AuthFile(), Trimmed(AuthIndexColumn);
    var codex, mark := provider == "codex", !historical && provider == "codex";
    EvalLit("codex", row);
    EvalEq(p, Lit("codex"), row, provider, "codex");
    EvalFilled(f, row, file);
    EvalFilled(i, row, index);
    EvalAnd(Filled(f), Filled(i), row, file != "", index != "");
    EvalAnd(Eq(p, Lit("codex")), Filled(f), row, codex, file != "");
    Yield2(f, i, row, file, index);
    Yield2(f, p, row, file, provider);
    var detailed := DetailedFileKeys(historical, project);
    var byCodex := Case(And(Eq(p, Lit("codex")), Filled(f)), FallbackKey(historical, File, [f, p]), detailed);
    var detailed' := KeyText(DetailedIdentity(mark, provider, file, index, projectId, account, name));
    var codex' := if codex && file != "" then Render(Identity(mark, File, [file, provider])) else detailed';
    EvalClause(historical, And(Eq(p, Lit("codex")), Filled(f)), File, [f, p], detailed, row,
      codex && file != "", [file, provider], provider, detailed');
    EvalClause(historical, And(Filled(f), Filled(i)), FileIndex, [f, i], byCodex, row,
      file != "" && index != "", [file, index], provider, codex');
  }

  // ----- The whole expression -----

  /** The texts a key is built from, trimmed in one way or the other. */
  datatype Reading = Reading(stable: bool, provider: string, file: string, index: string, projectId: string, account: string, name: string)

  ghost function BlankReading(fields: Fields): Reading {
    Reading(BlankStableMember(fields), FoldProvider(fields.authProvider), BlankAuthFile(fields), TrimBlanks(fields.authIndex),
      BlankProjectId(fields), TrimBlanks(fields.account), TrimBlanks(fields.authLabel))
  }

  /** The identity found in a reading; workspace and member are read alike in both. */
  ghost function IdentityIn(historical: bool, r: Reading, fields: Fields): Option<Identity> {
    var workspace, member := TrimBlanks(fields.authAccountId), Lower(TrimBlanks(fields.account));
    if r.stable && historical then Some(Identity(false, CodexMember, ["codex", workspace, member]))
    else if r.stable && (r.file != "" || r.index != "") then
      Some(Identity(false, CodexCredential, ["codex", workspace, member, r.file, r.index]))
    else
      FallbackIdentity(!historical && r.provider == "codex", r.provider, r.file, r.index, r.projectId, r.account, r.name)
  }

  lemma EvalFallbackKeys(historical: bool, row: Row, withoutProject: bool)
    ensures var r := BlankReading(FieldsOf(row, withoutProject));
            Yields(FallbackKeys(historical, ProjectId(withoutProject)), row, KeyText(
              FallbackIdentity(!historical && r.provider == "codex", r.provider, r.file, r.index, r.projectId, r.account, r.name)))
  {
    hide Eval, Render, ProviderNormalized, AuthFile, LegacyProjectId, ProjectId, Trimmed, FallbackKeys, TrimBlanks,
         FoldProvider, BlankAuthFile, BlankProjectId, BlankStableMember, Stored, FallbackIdentity, Yields;
    EvalProvider(row, withoutProject);
    EvalAuthFile(row, withoutProject);
    EvalTrimmed(row, AuthIndexColumn);
    EvalTrimmed(row, AccountSnapshot);
    EvalTrimmed(row, AuthLabelSnapshot);
    EvalLegacyProjectId(row, withoutProject);
    var r := BlankReading(FieldsOf(row, withoutProject));
    EvalFallbackPieces(historical, row, ProjectId(withoutProject), r.provider, r.file, r.index, r.projectId, r.account, r.name);
  }

  lemma EvalMemberClause(row: Row, withoutProject: bool)
    requires BlankStableMember(FieldsOf(row, withoutProject))
    ensures var fields := FieldsOf(row, withoutProject);
            var r, workspace, member := BlankReading(fields), TrimBlanks(fields.authAccountId), Lower(TrimBlanks(fields.account));
            && Yields(KeyExpression(CodexMember, [ProviderNormalized(), Trimmed(AuthAccountIdSnapshot), CodexMemberOf()]), row,
                 Render(Identity(false, CodexMember, ["codex", workspace, member])))
            && Yields(KeyExpression(CodexCredential,
                 [ProviderNormalized(), Trimmed(AuthAccountIdSnapshot), CodexMemberOf(), AuthFile(), Trimmed(AuthIndexColumn)]), row,
                 Render(Identity(false, CodexCredential, ["codex", workspace, member, r.file, r.index])))
  {
    var fields := FieldsOf(row, withoutProject);
    hide Eval, Render, ProviderNormalized, AuthFile, Trimmed, KeyExpression, TrimBlanks, FoldProvider, BlankAuthFile,
         BlankProjectId, Stored, Lower, ResolveCodexWorkspace, NormalizeCodexMemberSnapshot;
    var r, workspace, member := BlankReading(fields), TrimBlanks(fields.authAccountId), Lower(TrimBlanks(fields.account));
    EvalProvider(row, withoutProject);
    EvalAuthFile(row, withoutProject);
    EvalTrimmed(row, AuthIndexColumn);
    EvalTrimmed(row, AuthAccountIdSnapshot);
    EvalTrimmed(row, AccountSnapshot);
    EvalLower(Trimmed(AccountSnapshot), row, TrimBlanks(fields.account));
    EvalKey(CodexMember, [ProviderNormalized(), Trimmed(AuthAccountIdSnapshot), CodexMemberOf()], row,
      ["codex", workspace, member]);
    EvalKey(CodexCredential,
      [ProviderNormalized(), Trimmed(AuthAccountIdSnapshot), CodexMemberOf(), AuthFile(), Trimmed(AuthIndexColumn)], row,
      ["codex", workspace, member, r.file, r.index]);
  }

  /** For every row the expression gives the key of the identity in the row as SQLite reads it. */
  lemma EvalAccountKeyExpression(row: Row, withoutProject: bool, historical: bool)
    ensures var fields := FieldsOf(row, withoutProject);
            Yields(AccountKeyExpression(withoutProject, historical), row,
              KeyText(IdentityIn(historical, BlankReading(fields), fields)))
  {
    var fields, project := FieldsOf(row, withoutProject), ProjectId(withoutProject);
    hide Eval, Render, ProviderNormalized, AuthFile, Trimmed, KeyExpression, TrimBlanks, FoldProvider, BlankAuthFile,
         BlankProjectId, Stored, Lower, BlankStableMember, CodexMemberValid, FallbackKeys, FallbackIdentity, ProjectId, CodexMemberOf;
    var r := BlankReading(fields);
    var f, i := AuthFile(), Trimmed(AuthIndexColumn);
    EvalAuthFile(row, withoutProject);
    EvalTrimmed(row, AuthIndexColumn);
    EvalFilled(f, row, r.file);
    EvalFilled(i, row, r.index);
    EvalAnd(Filled(f), Filled(i), row, r.file != "", r.index != "");
    EvalCodexMemberValid(row, withoutProject);
    EvalAnd(CodexMemberValid(project), Or(Filled(f), Filled(i)), row, r.stable, r.file != "" || r.index != "");
    EvalFallbackKeys(historical, row, withoutProject);
    var member := KeyExpression(CodexMember, [ProviderNormalized(), Trimmed(AuthAccountIdSnapshot), CodexMemberOf()]);
    var credential := KeyExpression(CodexCredential,
      [ProviderNormalized(), Trimmed(AuthAccountIdSnapshot), CodexMemberOf(), f, i]);
    EvalCase(CodexMemberValid(project), member, FallbackKeys(true, project), row, r.stable);
    EvalCase(And(CodexMemberValid(project), Or(Filled(f), Filled(i))), credential, FallbackKeys(false, project), row,
      r.stable && (r.file != "" || r.index != ""));
    if r.stable { EvalMemberClause(row, withoutProject); }
  }
}
