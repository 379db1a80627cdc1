/**
  The account-history keys computed from the credential snapshots of a usage
  event, and what a key stands for: a kind, the normalised components it
  encodes, and whether it is marked as a credential key. Keys are proved to
  determine all three, so two credentials share a key only when every encoded
  component agrees.
 */
module AccountIdentity {
  import opened GoText

  datatype Option<+T> = None | Some(value: T)

  const KEY_PREFIX := "usage-account-history"
  const FORMAT_VERSION := "3"
  const MARKER := "codex-account-id:v1:"
  const CREDENTIAL := "credential:"

  datatype Fields = Fields(
    authFile: string,
    authIndex: string,
    authProvider: string,
    authAccountId: string,
    authProjectId: string,
    account: string,
    authLabel: string,
    source: string)

  datatype Kind =
    | CodexCredential | CodexMember
    | FileIndex | FileProject | FileAccount | FileLabel | File
    | AuthIndex | Project | Account | Label

  function KindName(kind: Kind): string {
    match kind
    case CodexCredential => "codex-credential"
    case CodexMember => "codex-member"
    case FileIndex => "file-index"
    case FileProject => "file-project"
    case FileAccount => "file-account"
    case FileLabel => "file-label"
    case File => "file"
    case AuthIndex => "auth-index"
    case Project => "project"
    case Account => "account"
    case Label => "label"
  }

  // ----- Key encoding -----

  function HexDigit(n: nat): char
    requires n < 16
  {
    if n < 10 then (48 + n) as char else (55 + n) as char
  }

  function HexByte(c: char): (r: string)
    ensures |r| == 2
  {
    var code := if c as int < 256 then c as int else 0;
    [HexDigit(code / 16), HexDigit(code % 16)]
  }

  /** strings.ToUpper(hex.EncodeToString(value)), which is also SQLite's hex(value). */
  function Hex(s: string): string {
    if |s| == 0 then "" else HexByte(s[0]) + Hex(s[1..])
  }

  /** The hexadecimal components, each introduced by a colon. */
  function HexParts(trim: string -> string, values: seq<string>): string {
    if |values| == 0 then "" else ":" + (Hex(trim(values[0])) + HexParts(trim, values[1..]))
  }

  function EncodeKeyWithTrim(kind: Kind, trim: string -> string, values: seq<string>): string {
    KEY_PREFIX + ":" + FORMAT_VERSION + ":" + (KindName(kind) + HexParts(trim, values))
  }

  function EncodeKey(kind: Kind, values: seq<string>): string {
    EncodeKeyWithTrim(kind, TrimSpace, values)
  }

  function EncodeCodexKey(kind: Kind, values: seq<string>): string {
    EncodeKeyWithTrim(kind, TrimBlanks, values)
  }

  // ----- Normalisation -----

  /** Lower-cased for ASCII text only, which is what the SQL expression can do too. */
  function NormalizeProvider(value: string): string {
    FoldProvider(TrimSpace(value))
  }

  function FoldProvider(value: string): string {
    var normalized := Lower(Replace(value, '_', "-"));
    if normalized == "x-ai" || normalized == "grok" then "xai" else normalized
  }

  function NormalizeCodexMemberSnapshot(value: string): Option<string> {
    var member := TrimBlanks(value);
    if member == "" || Count(member, '@') != 1 then None
    else if exists i | 0 <= i < |member| :: !Printable(member[i]) then None
    else
      var at := IndexOf(member, '@');
      if at == 0 || at >= |member| - 1 then None else Some(Lower(member))
  }

  function CodexAccountIdFromSnapshot(snapshot: string): string {
    var trimmed := TrimBlanks(snapshot);
    if !(MARKER <= trimmed) then "" else TrimBlanks(trimmed[|MARKER|..])
  }

  function ResolveCodexWorkspace(fields: Fields): Option<string> {
    var direct := TrimBlanks(fields.authAccountId);
    var markedPresent := MARKER <= TrimBlanks(fields.authProjectId);
    var marked := if markedPresent then CodexAccountIdFromSnapshot(fields.authProjectId) else "";
    if markedPresent && marked == "" then None
    else if direct != "" && marked != "" && direct != marked then None
    else if direct != "" then Some(direct)
    else if marked != "" then Some(marked)
    else None
  }

  function EffectiveAuthFile(fields: Fields): string {
    var authFile, source := TrimSpace(fields.authFile), TrimSpace(fields.source);
    if authFile != "" then authFile
    else if source == "" || source == TrimSpace(fields.account) || source == TrimSpace(fields.authLabel) then ""
    else source
  }

  // ----- The three keys -----

  /** The format-v2 key: None is the Go function's invalid result. */
  function LegacyAccountKey(fields: Fields): Option<string> {
    var authFile, authIndex := EffectiveAuthFile(fields), TrimSpace(fields.authIndex);
    var provider := NormalizeProvider(fields.authProvider);
    var project := TrimSpace(fields.authProjectId);
    var projectId := if provider == "codex" && CodexAccountIdFromSnapshot(project) != "" then "" else project;
    var account, name := TrimSpace(fields.account), TrimSpace(fields.authLabel);
    if provider == "codex" then
      if authFile != "" && authIndex != "" then Some(EncodeKey(FileIndex, [authFile, authIndex]))
      else if authFile != "" then Some(EncodeKey(File, [authFile, provider]))
      else if authIndex != "" then Some(EncodeKey(AuthIndex, [provider, authIndex]))
      else None
    else if authFile != "" && authIndex != "" then Some(EncodeKey(FileIndex, [authFile, authIndex]))
    else if authFile != "" && projectId != "" then Some(EncodeKey(FileProject, [authFile, provider, projectId]))
    else if authFile != "" && account != "" then Some(EncodeKey(FileAccount, [authFile, provider, account]))
    else if authFile != "" && name != "" then Some(EncodeKey(FileLabel, [authFile, provider, name]))
    else if authFile != "" then Some(EncodeKey(File, [authFile, provider]))
    else if authIndex != "" then Some(EncodeKey(AuthIndex, [provider, authIndex]))
    else if projectId != "" then Some(EncodeKey(Project, [provider, projectId]))
    else if account != "" then Some(EncodeKey(Account, [provider, account]))
    else if name != "" then Some(EncodeKey(Label, [provider, name]))
    else None
  }

  function AccountKey(fields: Fields): Option<string> {
    var provider := NormalizeProvider(fields.authProvider);
    var workspace := ResolveCodexWorkspace(fields);
    var member := NormalizeCodexMemberSnapshot(fields.account);
    var authFile, authIndex := EffectiveAuthFile(fields), TrimSpace(fields.authIndex);
    if provider == "codex" && workspace.Some? && TrimBlanks(fields.authAccountId) != "" && member.Some?
       && (authFile != "" || authIndex != "")
    then Some(EncodeCodexKey(CodexCredential, [provider, workspace.value, member.value, authFile, authIndex]))
    else
      match LegacyAccountKey(fields)
      case Some(key) => Some(if provider == "codex" then CREDENTIAL + key else key)
      case None => None
  }

  function HistoricalAccountKey(fields: Fields): Option<string> {
    var workspace := ResolveCodexWorkspace(fields);
    var member := NormalizeCodexMemberSnapshot(fields.account);
    if NormalizeProvider(fields.authProvider) == "codex" && workspace.Some? && member.Some?
       && TrimBlanks(fields.authAccountId) != ""
    then Some(EncodeCodexKey(CodexMember, ["codex", workspace.value, member.value]))
    else LegacyAccountKey(fields)
  }

  // ----- What a key stands for -----

  datatype Identity = Identity(credential: bool, kind: Kind, parts: seq<string>)

  function TrimEach(trim: string -> string, values: seq<string>): (r: seq<string>)
    ensures |r| == |values| && forall i | 0 <= i < |r| :: r[i] == trim(values[i])
  {
    seq(|values|, i requires 0 <= i < |values| => trim(values[i]))
  }

  function Verbatim(s: string): string { s }

  function Render(identity: Identity): string {
    (if identity.credential then CREDENTIAL else "") + EncodeKeyWithTrim(identity.kind, Verbatim, identity.parts)
  }

  lemma {:induction false} HexPartsTrimmed(trim: string -> string, values: seq<string>)
    ensures HexParts(trim, values) == HexParts(Verbatim, TrimEach(trim, values))
  {
    if |values| > 0 {
      HexPartsTrimmed(trim, values[1..]);
      assert TrimEach(trim, values)[1..] == TrimEach(trim, values[1..]);
    }
  }

  /** A legacy key identifies the kind and components of its branch. */
  ghost function LegacyIdentity(fields: Fields): Option<Identity> {
    var file, index := EffectiveAuthFile(fields), TrimSpace(fields.authIndex);
    var provider, codex := NormalizeProvider(fields.authProvider), NormalizeProvider(fields.authProvider) == "codex";
    var project, account, name := TrimSpace(fields.authProjectId), TrimSpace(fields.account), TrimSpace(fields.authLabel);
    if file != "" && index != "" then Some(Identity(false, FileIndex, [file, index]))
    else if file != "" && !codex && project != "" then Some(Identity(false, FileProject, [file, provider, project]))
    else if file != "" && !codex && account != "" then Some(Identity(false, FileAccount, [file, provider, account]))
    else if file != "" && !codex && name != "" then Some(Identity(false, FileLabel, [file, provider, name]))
    else if file != "" then Some(Identity(false, File, [file, provider]))
    else if index != "" then Some(Identity(false, AuthIndex, [provider, index]))
    else if !codex && project != "" then Some(Identity(false, Project, [provider, project]))
    else if !codex && account != "" then Some(Identity(false, Account, [provider, account]))
    else if !codex && name != "" then Some(Identity(false, Label, [provider, name]))
    else None
  }

  ghost predicate StableCodexMember(fields: Fields) {
    && NormalizeProvider(fields.authProvider) == "codex"
    && TrimBlanks(fields.authAccountId) != ""
    && ResolveCodexWorkspace(fields).Some?
    && NormalizeCodexMemberSnapshot(fields.account).Some?
  }

  ghost function AccountIdentityOf(fields: Fields): Option<Identity> {
    var file, index := EffectiveAuthFile(fields), TrimSpace(fields.authIndex);
    if StableCodexMember(fields) && (file != "" || index != "") then
      Some(Identity(false, CodexCredential,
        ["codex", TrimBlanks(fields.authAccountId), NormalizeCodexMemberSnapshot(fields.account).value, file, index]))
    else
      match LegacyIdentity(fields)
      case Some(id) => Some(id.(credential := NormalizeProvider(fields.authProvider) == "codex"))
      case None => None
  }

  ghost function HistoricalIdentityOf(fields: Fields): Option<Identity> {
    if StableCodexMember(fields) then
      Some(Identity(false, CodexMember,
        ["codex", TrimBlanks(fields.authAccountId), NormalizeCodexMemberSnapshot(fields.account).value]))
    else LegacyIdentity(fields)
  }

  ghost function Rendered(identity: Option<Identity>): Option<string> {
    match identity
    case Some(id) => Some(Render(id))
    case None => None
  }
}
