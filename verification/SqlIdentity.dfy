/**
  The SQL side of the account-history keys. The manager server builds one CASE
  expression that computes a row's key inside SQLite; here the builder produces
  the expression as a tree, with an evaluator for the SQLite functions it uses,
  including NULL and the character-based length, substr and instr of UTF-8
  text. Table aliases and the textual rendering of the tree are left out.
 */
module SqlIdentity {
  import opened GoText
  import opened AccountIdentity

  datatype Value = Null | Int(i: int) | Text(s: string) | Blob(b: string)

  datatype Column =
    | AuthFileSnapshot | AuthIndexColumn | Source | AccountSnapshot | AuthLabelSnapshot
    | AuthAccountIdSnapshot | AuthProjectIdSnapshot | AuthProviderSnapshot | ProviderColumn

  type Row = Column -> Option<string>

  datatype UnaryOp =
    | TrimOp | LowerOp | ReplaceOp(from: char, to: string) | LengthOp | BlobOp | InstrOp(needle: char)
    | OnlyGlobOp(lo: char, hi: char)  // not glob '*[^lo-hi]*'
    | HexOp

  datatype BinaryOp =
    | CoalesceOp | NullIfOp | SubstrOp | PrefixOp | ConcatOp | AddOp | SubOp | EqOp | NeOp | GtOp | AndOp | OrOp

  datatype Expr =
    | Col(c: Column)
    | Lit(text: string)
    | Num(n: int)
    | Unary(unary: UnaryOp, a: Expr)
    | Binary(binary: BinaryOp, a: Expr, b: Expr)
    | Case(cond: Expr, yes: Expr, no: Expr)

  function Coalesce(a: Expr, b: Expr): Expr { Binary(CoalesceOp, a, b) }
  function NullIf(a: Expr, b: Expr): Expr { Binary(NullIfOp, a, b) }
  function Trim(a: Expr): Expr { Unary(TrimOp, a) }
  function LowerOf(a: Expr): Expr { Unary(LowerOp, a) }
  function ReplaceIn(a: Expr, from: char, to: string): Expr { Unary(ReplaceOp(from, to), a) }
  function Substr(a: Expr, start: Expr): Expr { Binary(SubstrOp, a, start) }
  function SubstrLen(a: Expr, start: Expr, len: Expr): Expr { Binary(PrefixOp, Substr(a, start), len) }
  function Length(a: Expr): Expr { Unary(LengthOp, a) }
  function CastBlob(a: Expr): Expr { Unary(BlobOp, a) }
  function Instr(a: Expr, needle: char): Expr { Unary(InstrOp(needle), a) }
  function OnlyGlob(a: Expr, lo: char, hi: char): Expr { Unary(OnlyGlobOp(lo, hi), a) }
  function HexOf(a: Expr): Expr { Unary(HexOp, a) }
  function Concat(a: Expr, b: Expr): Expr { Binary(ConcatOp, a, b) }
  function Add(a: Expr, b: Expr): Expr { Binary(AddOp, a, b) }
  function Sub(a: Expr, b: Expr): Expr { Binary(SubOp, a, b) }
  function Eq(a: Expr, b: Expr): Expr { Binary(EqOp, a, b) }
  function Ne(a: Expr, b: Expr): Expr { Binary(NeOp, a, b) }
  function Gt(a: Expr, b: Expr): Expr { Binary(GtOp, a, b) }
  function And(a: Expr, b: Expr): Expr { Binary(AndOp, a, b) }
  function Or(a: Expr, b: Expr): Expr { Binary(OrOp, a, b) }

  // ----- Characters of UTF-8 text -----

  function DropContinuation(s: string): (r: string)
    ensures |r| <= |s|
  {
    if |s| > 0 && 0x80 <= s[0] as int < 0xC0 then DropContinuation(s[1..]) else s
  }

  /** The text after the first character, as SQLite skips it. */
  function SkipChar(s: string): (r: string)
    requires |s| > 0
    ensures |r| < |s|
  {
    if s[0] as int < 0xC0 then s[1..] else DropContinuation(s[1..])
  }

  lemma Continues(s: string)
    requires |s| > 0 && 0x80 <= s[0] as int < 0xC0
    ensures DropContinuation(s) == DropContinuation(s[1..])
  {
  }

  lemma Continued(code: int)
    requires 0x80 <= code < 0xD800
    ensures Utf8(code)[0] as int >= 0xC0 && forall i | 1 <= i < |Utf8(code)| :: 0x80 <= Utf8(code)[i] as int < 0xC0
  {
  }

  /** One character is skipped, however many bytes it has. */
  lemma SkipsOneCharacter(code: int, rest: string)
    requires 0x80 <= code < 0xD800 && (rest == "" || rest[0] as int < 0x80 || rest[0] as int >= 0xC0)
    ensures SkipChar(Utf8(code) + rest) == rest
  {
    hide Utf8;
    Continued(code);
    var bytes := Utf8(code);
    var s := bytes + rest;
    assert |bytes| == 2 || |bytes| == 3 by { TwoOrThree(code); }
    assert s[0] == bytes[0] && s[1..][0] == bytes[1];
    Continues(s[1..]);
    assert s[1..][1..] == s[2..];
    if |bytes| == 3 {
      assert s[2..][0] == bytes[2];
      Continues(s[2..]);
      assert s[2..][1..] == s[3..];
    }
    assert s[|bytes|..] == rest;
  }

  lemma TwoOrThree(code: int)
    requires 0x80 <= code < 0xD800
    ensures 2 <= |Utf8(code)| <= 3
  {
  }

  function CharCount(s: string): nat
    decreases |s|
  {
    if |s| == 0 then 0 else 1 + CharCount(SkipChar(s))
  }

  function DropChars(s: string, n: int): (r: string)
    ensures |r| <= |s| && r == s[|s| - |r|..]
    decreases |s|
  {
    if |s| == 0 || n <= 0 then s
    else
      DropContinuationSuffix(s[1..]);
      DropChars(SkipChar(s), n - 1)
  }

  lemma {:induction false} DropContinuationSuffix(s: string)
    ensures DropContinuation(s) == s[|s| - |DropContinuation(s)|..]
  {
    if |s| > 0 && 0x80 <= s[0] as int < 0xC0 { DropContinuationSuffix(s[1..]); }
  }

  function TakeChars(s: string, n: int): (r: string)
    ensures r <= s
  {
    s[..|s| - |DropChars(s, n)|]
  }

  /** The one-based character position of c, zero if absent. */
  function CharPosition(s: string, c: char): nat
    decreases |s|
  {
    if |s| == 0 then 0
    else if s[0] == c then 1
    else var rest := CharPosition(SkipChar(s), c); if rest == 0 then 0 else rest + 1
  }

  // ----- Evaluation -----

  function Truth(b: bool): Value {
    Int(if b then 1 else 0)
  }

  predicate Within(s: string, lo: char, hi: char) {
    forall i | 0 <= i < |s| :: lo <= s[i] <= hi
  }

  function OnText(op: UnaryOp, s: string): Value {
    match op
    case TrimOp => Text(TrimBlanks(s))
    case LowerOp => Text(Lower(s))
    case ReplaceOp(from, to) => Text(Replace(s, from, to))
    case LengthOp => Int(CharCount(s))
    case BlobOp => Blob(s)
    case InstrOp(c) => Int(CharPosition(s, c))
    case OnlyGlobOp(lo, hi) => Truth(Within(s, lo, hi))
    case HexOp => Text(Hex(s))
  }

  function OnOne(op: UnaryOp, v: Value): Value {
    match v
    case Text(s) => OnText(op, s)
    case Blob(b) => if op == LengthOp then Int(|b|) else OnText(op, b)
    case _ => Null
  }

  function OnIntegers(op: BinaryOp, i: int, j: int): Value {
    match op
    case AddOp => Int(i + j)
    case SubOp => Int(i - j)
    case GtOp => Truth(i > j)
    case _ => Null
  }

  function Compare(a: Value, b: Value, equal: bool): Value {
    if a.Null? || b.Null? then Null else Truth((a == b) == equal)
  }

  function AndThen(a: Value, b: Value): Value {
    if a == Int(0) || b == Int(0) then Int(0) else if a.Null? || b.Null? then Null else Int(1)
  }

  function OrElse(a: Value, b: Value): Value {
    if (a != Int(0) && !a.Null?) || (b != Int(0) && !b.Null?) then Int(1)
    else if a.Null? || b.Null? then Null else Int(0)
  }

  function OnTwo(op: BinaryOp, a: Value, b: Value): Value {
    match op
    case CoalesceOp => if a.Null? then b else a
    case NullIfOp => if a == b then Null else a
    case SubstrOp => if a.Text? && b.Int? then Text(DropChars(a.s, b.i - 1)) else Null
    case PrefixOp => if a.Text? && b.Int? then Text(TakeChars(a.s, b.i)) else Null
    case ConcatOp => if a.Text? && b.Text? then Text(a.s + b.s) else Null
    case EqOp => Compare(a, b, true)
    case NeOp => Compare(a, b, false)
    case AndOp => AndThen(a, b)
    case OrOp => OrElse(a, b)
    case _ => if a.Int? && b.Int? then OnIntegers(op, a.i, b.i) else Null
  }

  function Eval(e: Expr, row: Row): Value {
    match e
    case Col(c) => (match row(c) case Some(s) => Text(s) case None => Null)
    case Lit(text) => Text(text)
    case Num(n) => Int(n)
    case Unary(op, a) => OnOne(op, Eval(a, row))
    case Binary(op, a, b) => OnTwo(op, Eval(a, row), Eval(b, row))
    case Case(cond, yes, no) =>
      var v := Eval(cond, row);
      if v.Null? || v == Int(0) then Eval(no, row) else Eval(yes, row)
  }

  // ----- The expression builder -----

  function Trimmed(c: Column): Expr {
    Trim(Coalesce(Col(c), Lit("")))
  }

  function Filled(e: Expr): Expr {
    Ne(e, Lit(""))
  }

  function ProjectId(withoutProject: bool): Expr {
    if withoutProject then Lit("") else Trimmed(AuthProjectIdSnapshot)
  }

  function ProviderSource(): Expr {
    Coalesce(NullIf(Trimmed(AuthProviderSnapshot), Lit("")), Coalesce(Trimmed(ProviderColumn), Lit("")))
  }

  function ProviderFolded(): Expr {
    LowerOf(ReplaceIn(ProviderSource(), '_', "-"))
  }

  function ProviderNormalized(): Expr {
    Case(Eq(ProviderFolded(), Lit("x-ai")), Lit("xai"),
      Case(Eq(ProviderFolded(), Lit("grok")), Lit("xai"), ProviderFolded()))
  }

  function AuthFile(): Expr {
    var file, source := Trimmed(AuthFileSnapshot), Trimmed(Source);
    Case(Filled(file), file,
      Case(And(And(Filled(source), Ne(source, Trimmed(AccountSnapshot))), Ne(source, Trimmed(AuthLabelSnapshot))),
        source, Lit("")))
  }

  function MarkerPresent(project: Expr): Expr {
    Eq(SubstrLen(project, Num(1), Length(Lit(MARKER))), Lit(MARKER))
  }

  function LegacyMarkerAccountId(project: Expr): Expr {
    Case(MarkerPresent(project), Trim(Substr(project, Add(Length(Lit(MARKER)), Num(1)))), Lit(""))
  }

  function WorkspaceValid(project: Expr): Expr {
    var direct, marked, legacy := Filled(Trimmed(AuthAccountIdSnapshot)), MarkerPresent(project), LegacyMarkerAccountId(project);
    And(Or(Eq(marked, Num(0)), Filled(legacy)),
      Or(Or(Eq(direct, Num(0)), Eq(marked, Num(0))), Eq(Trimmed(AuthAccountIdSnapshot), legacy)))
  }

  function PrintableAscii(e: Expr): Expr {
    And(And(Filled(e), Eq(Length(e), Length(CastBlob(e)))), OnlyGlob(e, '!', '~'))
  }

  function CodexMemberOf(): Expr {
    LowerOf(Trimmed(AccountSnapshot))
  }

  function EmailShaped(member: Expr): Expr {
    And(And(Gt(Instr(member, '@'), Num(1)), Gt(Length(member), Instr(member, '@'))),
      Eq(Sub(Length(member), Length(ReplaceIn(member, '@', ""))), Num(1)))
  }

  function CodexMemberValid(project: Expr): Expr {
    And(Eq(ProviderNormalized(), Lit("codex")),
      And(Filled(Trimmed(AuthAccountIdSnapshot)),
        And(WorkspaceValid(project),
          And(PrintableAscii(Trimmed(AccountSnapshot)), EmailShaped(CodexMemberOf())))))
  }

  function LegacyProjectId(project: Expr): Expr {
    Case(And(Eq(ProviderNormalized(), Lit("codex")), Filled(LegacyMarkerAccountId(project))), Lit(""), project)
  }

  function HexJoined(values: seq<Expr>): Expr
    requires |values| > 0
  {
    if |values| == 1 then HexOf(values[0]) else Concat(HexOf(values[0]), Concat(Lit(":"), HexJoined(values[1..])))
  }

  function KeyExpression(kind: Kind, values: seq<Expr>): Expr
    requires |values| > 0
  {
    Concat(Lit(KEY_PREFIX + ":" + FORMAT_VERSION + ":" + KindName(kind) + ":"), HexJoined(values))
  }

  /** A fallback key: outside the historical mode a Codex row's key is marked as a credential key. */
  function FallbackKey(historical: bool, kind: Kind, values: seq<Expr>): Expr
    requires |values| > 0
  {
    if historical then KeyExpression(kind, values)
    else Concat(Case(Eq(ProviderNormalized(), Lit("codex")), Lit(CREDENTIAL), Lit("")), KeyExpression(kind, values))
  }

  function NotCodex(): Expr {
    Ne(ProviderNormalized(), Lit("codex"))
  }

  /** The clauses for rows without an auth file. */
  function FilelessKeys(historical: bool, project: Expr): Expr {
    var provider, index := ProviderNormalized(), Trimmed(AuthIndexColumn);
    var account, name := Trimmed(AccountSnapshot), Trimmed(AuthLabelSnapshot);
    Case(Filled(index), FallbackKey(historical, AuthIndex, [provider, index]),
      Case(And(NotCodex(), Filled(LegacyProjectId(project))), FallbackKey(historical, Project, [provider, LegacyProjectId(project)]),
        Case(And(NotCodex(), Filled(account)), FallbackKey(historical, Account, [provider, account]),
          Case(And(NotCodex(), Filled(name)), FallbackKey(historical, Label, [provider, name]), Lit("")))))
  }

  function NamedFileKeys(historical: bool, project: Expr): Expr {
    var provider, file, name := ProviderNormalized(), AuthFile(), Trimmed(AuthLabelSnapshot);
    Case(And(And(NotCodex(), Filled(file)), Filled(name)), FallbackKey(historical, FileLabel, [file, provider, name]),
      Case(Filled(file), FallbackKey(historical, File, [file, provider]), FilelessKeys(historical, project)))
  }

  /** The clauses that tell rows with an auth file apart by a further component, in front of those. */
  function DetailedFileKeys(historical: bool, project: Expr): Expr {
    var provider, file, account := ProviderNormalized(), AuthFile(), Trimmed(AccountSnapshot);
    Case(And(And(NotCodex(), Filled(file)), Filled(LegacyProjectId(project))),
      FallbackKey(historical, FileProject, [file, provider, LegacyProjectId(project)]),
      Case(And(And(NotCodex(), Filled(file)), Filled(account)), FallbackKey(historical, FileAccount, [file, provider, account]),
        NamedFileKeys(historical, project)))
  }

  function FallbackKeys(historical: bool, project: Expr): Expr {
    var provider, index, file := ProviderNormalized(), Trimmed(AuthIndexColumn), AuthFile();
    Case(And(Filled(file), Filled(index)), FallbackKey(historical, FileIndex, [file, index]),
      Case(And(Eq(provider, Lit("codex")), Filled(file)), FallbackKey(historical, File, [file, provider]),
        DetailedFileKeys(historical, project)))
  }

  function AccountKeyExpression(withoutProject: bool, historical: bool): Expr {
    var project := ProjectId(withoutProject);
    var workspace := Trimmed(AuthAccountIdSnapshot);
    var file, index := AuthFile(), Trimmed(AuthIndexColumn);
    if historical then
      Case(CodexMemberValid(project),
        KeyExpression(CodexMember, [ProviderNormalized(), workspace, CodexMemberOf()]),
        FallbackKeys(true, project))
    else
      Case(And(CodexMemberValid(project), Or(Filled(file), Filled(index))),
        KeyExpression(CodexCredential, [ProviderNormalized(), workspace, CodexMemberOf(), file, index]),
        FallbackKeys(false, project))
  }

  // ----- The rows and the fields Go sees -----

  function Stored(row: Row, c: Column): string {
    match row(c) case Some(s) => s case None => ""
  }

  /** The fields Go computes a key from; the provider is the coalesce of the snapshot and the event's provider. */
  function FieldsOf(row: Row, withoutProject: bool): Fields {
    Fields(
      Stored(row, AuthFileSnapshot),
      Stored(row, AuthIndexColumn),
      if TrimBlanks(Stored(row, AuthProviderSnapshot)) != "" then TrimBlanks(Stored(row, AuthProviderSnapshot))
      else TrimBlanks(Stored(row, ProviderColumn)),
      Stored(row, AuthAccountIdSnapshot),
      if withoutProject then "" else Stored(row, AuthProjectIdSnapshot),
      Stored(row, AccountSnapshot),
      Stored(row, AuthLabelSnapshot),
      Stored(row, Source))
  }

  /** Texts SQLite's functions read to the end, and providers it can lower-case. */
  ghost predicate CleanRow(row: Row) {
    && (forall c: Column, i | 0 <= i < |Stored(row, c)| :: Stored(row, c)[i] as int != 0)
    && Ascii(Stored(row, AuthProviderSnapshot)) && Ascii(Stored(row, ProviderColumn))
  }

  /** The only outer white space is the ASCII blank. */
  ghost predicate PlainRow(row: Row) {
    CleanRow(row) && forall c: Column :: PlainEnds(Stored(row, c))
  }
}
