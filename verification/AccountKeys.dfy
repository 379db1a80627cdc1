/**
  What account-history keys guarantee: a key is the rendering of one identity,
  and no other identity renders to it.
 */
module AccountKeys {
  import opened GoText
  import opened AccountIdentity

  // ----- Rendering is injective -----

  ghost predicate NoColon(s: string) {
    forall i | 0 <= i < |s| :: s[i] != ':'
  }

  lemma {:induction false} HexShape(s: string)
    ensures |Hex(s)| == 2 * |s| && NoColon(Hex(s))
  {
    if |s| > 0 { HexShape(s[1..]); }
  }

  lemma DigitsInjective(x: nat, y: nat)
    requires x < 256 && y < 256
    requires HexDigit(x / 16) == HexDigit(y / 16) && HexDigit(x % 16) == HexDigit(y % 16)
    ensures x == y
  {
  }

  lemma HexByteInjective(c: char, d: char)
    requires c as int < 256 && d as int < 256 && HexByte(c) == HexByte(d)
    ensures c == d
  {
    assert HexByte(c)[0] == HexByte(d)[0] && HexByte(c)[1] == HexByte(d)[1];
    DigitsInjective(c as int, d as int);
  }

  lemma SplitAt(p: string, x: string, q: string, y: string)
    requires |p| == |q| && p + x == q + y
    ensures p == q && x == y
  {
    assert p == (p + x)[..|p|] && q == (q + y)[..|q|];
    assert x == (p + x)[|p|..] && y == (q + y)[|q|..];
  }

  lemma {:induction false} HexInjective(a: string, b: string)
    requires Bytes(a) && Bytes(b) && Hex(a) == Hex(b)
    ensures a == b
  {
    HexShape(a);
    HexShape(b);
    if |a| > 0 {
      assert |b| > 0;
      assert Hex(a) == HexByte(a[0]) + Hex(a[1..]) && Hex(b) == HexByte(b[0]) + Hex(b[1..]);
      SplitAt(HexByte(a[0]), Hex(a[1..]), HexByte(b[0]), Hex(b[1..]));
      HexByteInjective(a[0], b[0]);
      HexInjective(a[1..], b[1..]);
      assert a == [a[0]] + a[1..] && b == [b[0]] + b[1..];
    }
  }

  /** The value of an upper-case hexadecimal digit. */
  function DigitValue(c: char): int {
    if '0' <= c <= '9' then c as int - '0' as int
    else if 'A' <= c <= 'F' then c as int - 'A' as int + 10
    else -1
  }

  /** Two digits for every byte, the higher one first. */
  lemma {:induction false} HexMeans(s: string, i: nat)
    requires Bytes(s) && i < |s|
    ensures |Hex(s)| == 2 * |s|
    ensures 0 <= DigitValue(Hex(s)[2 * i]) && 0 <= DigitValue(Hex(s)[2 * i + 1])
    ensures 16 * DigitValue(Hex(s)[2 * i]) + DigitValue(Hex(s)[2 * i + 1]) == s[i] as int
  {
    assert Hex(s) == HexByte(s[0]) + Hex(s[1..]);
    if i > 0 {
      HexMeans(s[1..], i - 1);
    } else if |s| > 1 {
      HexMeans(s[1..], 0);
    }
  }

  lemma FirstColon(a: string, r: string)
    requires NoColon(a) && (r == "" || r[0] == ':')
    ensures IndexOf(a + r, ':') == |a|
  {
    var whole := a + r;
    var i := IndexOf(whole, ':');
    assert forall k | 0 <= k < |a| :: whole[k] == a[k];
    assert |a| < |whole| ==> whole[|a|] == r[0];
  }

  /** The text up to the first colon is determined. */
  lemma ColonSplits(a: string, r: string, b: string, s: string)
    requires NoColon(a) && NoColon(b) && a + r == b + s
    requires (r == "" || r[0] == ':') && (s == "" || s[0] == ':')
    ensures a == b && r == s
  {
    FirstColon(a, r);
    FirstColon(b, s);
    SplitAt(a, r, b, s);
  }

  ghost predicate AllBytes(parts: seq<string>) {
    forall i | 0 <= i < |parts| :: Bytes(parts[i])
  }

  lemma {:induction false} PartsInjective(a: seq<string>, b: seq<string>)
    requires AllBytes(a) && AllBytes(b)
    requires HexParts(Verbatim, a) == HexParts(Verbatim, b)
    ensures a == b
  {
    hide Hex;
    if |a| > 0 && |b| > 0 {
      var r, s := HexParts(Verbatim, a[1..]), HexParts(Verbatim, b[1..]);
      SplitAt(":", Hex(a[0]) + r, ":", Hex(b[0]) + s);
      HexShape(a[0]);
      HexShape(b[0]);
      ColonSplits(Hex(a[0]), r, Hex(b[0]), s);
      HexInjective(a[0], b[0]);
      PartsInjective(a[1..], b[1..]);
      assert a == [a[0]] + a[1..] && b == [b[0]] + b[1..];
    }
  }

  /** Reads a kind back from its name. */
  function KindOf(name: string): Kind {
    if |name| == 16 then CodexCredential
    else if |name| == 12 then if name[0] == 'c' then CodexMember else if name[5] == 'p' then FileProject else FileAccount
    else if |name| == 10 then if name[0] == 'a' then AuthIndex else if name[5] == 'i' then FileIndex else FileLabel
    else if |name| == 4 then File
    else if |name| == 5 then Label
    else if |name| == 7 && name[0] == 'p' then Project
    else Account
  }

  lemma KindNames(kind: Kind)
    ensures KindOf(KindName(kind)) == kind && NoColon(KindName(kind))
  {
    match kind
    case CodexCredential =>
    case CodexMember =>
    case FileIndex =>
    case FileProject =>
    case FileAccount =>
    case FileLabel =>
    case File =>
    case AuthIndex =>
    case Project =>
    case Account =>
    case Label =>
  }

  /** Two identities with the same key are the same identity. */
  lemma RenderInjective(a: Identity, b: Identity)
    requires AllBytes(a.parts) && AllBytes(b.parts) && Render(a) == Render(b)
    ensures a == b
  {
    var tailA, tailB := KindName(a.kind) + HexParts(Verbatim, a.parts), KindName(b.kind) + HexParts(Verbatim, b.parts);
    SameTail(a, b, tailA, tailB);
    KindNames(a.kind);
    KindNames(b.kind);
    ColonSplits(KindName(a.kind), HexParts(Verbatim, a.parts), KindName(b.kind), HexParts(Verbatim, b.parts));
    PartsInjective(a.parts, b.parts);
  }

  lemma SameTail(a: Identity, b: Identity, tailA: string, tailB: string)
    requires Render(a) == Render(b)
    requires tailA == KindName(a.kind) + HexParts(Verbatim, a.parts)
    requires tailB == KindName(b.kind) + HexParts(Verbatim, b.parts)
    ensures a.credential == b.credential && tailA == tailB
  {
    SameCredentialMark(a, b);
    var fixed := KEY_PREFIX + ":" + FORMAT_VERSION + ":";
    var mark := if a.credential then CREDENTIAL else "";
    SplitAt(mark, fixed + tailA, mark, fixed + tailB);
    SplitAt(fixed, tailA, fixed, tailB);
  }

  lemma SameCredentialMark(a: Identity, b: Identity)
    requires Render(a) == Render(b)
    ensures a.credential == b.credential
  {
    assert Render(a)[0] == if a.credential then 'c' else 'u';
    assert Render(b)[0] == if b.credential then 'c' else 'u';
  }

  // ----- Keys render identities -----

  /** Changing only printable characters into printable characters does not create or remove white space. */
  lemma WhiteSpaceKept(s: string, t: string)
    requires |s| == |t|
    requires forall i | 0 <= i < |s| :: s[i] == t[i] || (Printable(s[i]) && Printable(t[i]))
    ensures LeadingSpace(s) == LeadingSpace(t) && TrailingSpace(s) == TrailingSpace(t)
  {
    forall i, j | 0 <= i <= j <= |s| ensures WideSpace(s[i..j]) == WideSpace(t[i..j]) {
      WideSpaceKept(s[i..j], t[i..j]);
    }
    assert |s| >= 2 ==> s[..2] == s[0..2] && t[..2] == t[0..2] && s[|s| - 2..] == s[|s| - 2..|s|] && t[|s| - 2..] == t[|s| - 2..|s|];
    assert |s| >= 3 ==> s[..3] == s[0..3] && t[..3] == t[0..3] && s[|s| - 3..] == s[|s| - 3..|s|] && t[|s| - 3..] == t[|s| - 3..|s|];
  }

  lemma WideSpaceKept(s: string, t: string)
    requires |s| == |t|
    requires forall i | 0 <= i < |s| :: s[i] == t[i] || (Printable(s[i]) && Printable(t[i]))
    ensures WideSpace(s) == WideSpace(t)
  {
  }

  lemma {:induction false} ReplaceUnderscores(s: string)
    ensures var r := Replace(s, '_', "-");
            |r| == |s| && forall i | 0 <= i < |s| :: r[i] == if s[i] == '_' then '-' else s[i]
  {
    if |s| > 0 { ReplaceUnderscores(s[1..]); }
  }

  lemma XaiTrimmed()
    ensures TrimSpace("xai") == "xai" && TrimBlanks("xai") == "xai"
  {
    hide TrimSpace, TrimBlanks;
    PrintableEnds("xai");
  }

  lemma ProviderTrimmed(value: string)
    ensures TrimSpace(NormalizeProvider(value)) == NormalizeProvider(value)
    ensures TrimBlanks(NormalizeProvider(value)) == NormalizeProvider(value)
  {
    hide TrimSpace, TrimBlanks, LeadingSpace, TrailingSpace, Replace;
    XaiTrimmed();
    var t := TrimSpace(value);
    ReplaceUnderscores(t);
    TrimSpaceIdempotent(value);
    WhiteSpaceKept(t, Lower(Replace(t, '_', "-")));
    TrimSpaceFixed(Lower(Replace(t, '_', "-")));
  }

  /** Neither way of trimming changes s. */
  ghost predicate Tidy(s: string) {
    TrimSpace(s) == s && TrimBlanks(s) == s
  }

  lemma MemberTrimmed(value: string)
    requires NormalizeCodexMemberSnapshot(value).Some?
    ensures var m := NormalizeCodexMemberSnapshot(value).value; TrimBlanks(m) == m
  {
    hide Lower, TrimBlanks, Count;
    TrimBlanksIdempotent(value);
    BlanksKept(TrimBlanks(value));
  }

  lemma BlanksKept(s: string)
    requires |s| > 0 && s[0] != ' ' && s[|s| - 1] != ' '
    ensures TrimBlanks(Lower(s)) == Lower(s)
  {
    assert Lower(s)[0] != ' ' && Lower(s)[|s| - 1] != ' ';
  }

  lemma AuthFileTidy(fields: Fields)
    ensures Tidy(EffectiveAuthFile(fields))
  {
    hide TrimSpace, TrimBlanks;
    NothingToTrim();
    TrimSpaceIdempotent(fields.authFile);
    TrimSpaceIdempotent(fields.source);
  }

  lemma EncodeTidy(kind: Kind, values: seq<string>)
    requires forall i | 0 <= i < |values| :: Tidy(values[i])
    ensures EncodeKey(kind, values) == Render(Identity(false, kind, values))
    ensures CREDENTIAL + EncodeKey(kind, values) == Render(Identity(true, kind, values))
  {
    hide HexParts, TrimSpace, TrimBlanks, KindName;
    HexPartsTrimmed(TrimSpace, values);
    assert TrimEach(TrimSpace, values) == values;
    hide TrimEach;
    assert "" + EncodeKey(kind, values) == EncodeKey(kind, values);
  }

  lemma EncodeCodexTidy(kind: Kind, values: seq<string>)
    requires forall i | 0 <= i < |values| :: TrimBlanks(values[i]) == values[i]
    ensures EncodeCodexKey(kind, values) == Render(Identity(false, kind, values))
  {
    hide HexParts, TrimSpace, TrimBlanks, KindName;
    HexPartsTrimmed(TrimBlanks, values);
    assert TrimEach(TrimBlanks, values) == values;
    hide TrimEach;
    assert "" + EncodeCodexKey(kind, values) == EncodeCodexKey(kind, values);
  }

  lemma LegacyPartsTidy(fields: Fields)
    requires LegacyIdentity(fields).Some?
    ensures var parts := LegacyIdentity(fields).value.parts; forall i | 0 <= i < |parts| :: Tidy(parts[i])
  {
    hide EffectiveAuthFile, NormalizeProvider, TrimSpace, TrimBlanks;
    AuthFileTidy(fields);
    ProviderTrimmed(fields.authProvider);
    TrimSpaceIdempotent(fields.authIndex);
    TrimSpaceIdempotent(fields.authProjectId);
    TrimSpaceIdempotent(fields.account);
    TrimSpaceIdempotent(fields.authLabel);
  }

  lemma LegacyKeyEncodes(fields: Fields)
    ensures match LegacyIdentity(fields)
            case None => LegacyAccountKey(fields) == None
            case Some(id) => !id.credential && LegacyAccountKey(fields) == Some(EncodeKey(id.kind, id.parts))
  {
  }

  lemma LegacyKeyRenders(fields: Fields)
    ensures LegacyAccountKey(fields) == Rendered(LegacyIdentity(fields))
    ensures LegacyIdentity(fields).Some? ==>
      CREDENTIAL + LegacyAccountKey(fields).value == Render(LegacyIdentity(fields).value.(credential := true))
  {
    hide LegacyAccountKey, LegacyIdentity, Render;
    LegacyKeyEncodes(fields);
    match LegacyIdentity(fields)
    case None =>
    case Some(id) =>
      LegacyPartsTidy(fields);
      EncodeTidy(id.kind, id.parts);
  }

  lemma DirectWorkspace(fields: Fields)
    requires StableCodexMember(fields)
    ensures ResolveCodexWorkspace(fields) == Some(TrimBlanks(fields.authAccountId))
  {
  }

  lemma StableMemberRenders(fields: Fields, workspace: string, member: string)
    requires StableCodexMember(fields)
    requires workspace == TrimBlanks(fields.authAccountId) && Some(member) == NormalizeCodexMemberSnapshot(fields.account)
    ensures EncodeCodexKey(CodexMember, ["codex", workspace, member])
         == Render(Identity(false, CodexMember, ["codex", workspace, member]))
    ensures var parts := ["codex", workspace, member, EffectiveAuthFile(fields), TrimSpace(fields.authIndex)];
            EncodeCodexKey(CodexCredential, parts) == Render(Identity(false, CodexCredential, parts))
  {
    hide *;
    CodexTrimmed();
    assert TrimBlanks(member) == member by { MemberTrimmed(fields.account); }
    assert TrimBlanks(workspace) == workspace by { TrimBlanksIdempotent(fields.authAccountId); }
    var file, index := EffectiveAuthFile(fields), TrimSpace(fields.authIndex);
    assert TrimBlanks(file) == file by { AuthFileTidy(fields); TidyBlanks(file); }
    assert TrimBlanks(index) == index by { TrimSpaceIdempotent(fields.authIndex); }
    EncodeCodexTidy(CodexMember, ["codex", workspace, member]);
    EncodeCodexTidy(CodexCredential, ["codex", workspace, member, file, index]);
  }

  lemma CodexTrimmed()
    ensures TrimBlanks("codex") == "codex"
  {
  }

  lemma TidyBlanks(s: string)
    requires Tidy(s)
    ensures TrimBlanks(s) == s
  {
  }

  /** Both keys are the renderings of the identities; invalid exactly when there is none. */
  lemma KeysRenderIdentities(fields: Fields)
    ensures AccountKey(fields) == Rendered(AccountIdentityOf(fields))
    ensures HistoricalAccountKey(fields) == Rendered(HistoricalIdentityOf(fields))
  {
    hide LegacyAccountKey, LegacyIdentity, Render, EncodeCodexKey, TrimSpace, TrimBlanks, EffectiveAuthFile,
         NormalizeCodexMemberSnapshot, ResolveCodexWorkspace, NormalizeProvider;
    LegacyKeyRenders(fields);
    if StableCodexMember(fields) {
      DirectWorkspace(fields);
      StableMemberRenders(fields, TrimBlanks(fields.authAccountId), NormalizeCodexMemberSnapshot(fields.account).value);
    }
  }

  // ----- What equal keys mean -----

  /** A Go string holds bytes. */
  ghost predicate BytesFields(fields: Fields) {
    && Bytes(fields.authFile) && Bytes(fields.authIndex) && Bytes(fields.authProvider) && Bytes(fields.authAccountId)
    && Bytes(fields.authProjectId) && Bytes(fields.account) && Bytes(fields.authLabel) && Bytes(fields.source)
  }

  lemma TrimLeftBytes(s: string)
    requires Bytes(s)
    ensures Bytes(TrimLeft(s)) && Bytes(TrimRight(s)) && Bytes(TrimSpaceRight(s)) && Bytes(Lower(s))
  {
    hide TrimLeft, TrimRight, TrimSpaceRight;
    var skipped := |s| - |TrimLeft(s)|;
    assert TrimLeft(s) == s[skipped..];
  }

  lemma {:induction false} TrimSpaceLeftBytes(s: string)
    requires Bytes(s)
    ensures Bytes(TrimSpaceLeft(s))
    decreases |s|
  {
    var n := LeadingSpace(s);
    if n != 0 {
      TrimSpaceLeftBytes(s[n..]);
    }
  }

  lemma TrimmedBytes(s: string)
    requires Bytes(s)
    ensures Bytes(TrimSpace(s)) && Bytes(TrimBlanks(s)) && Bytes(Lower(TrimBlanks(s)))
  {
    TrimSpaceLeftBytes(s);
    TrimLeftBytes(TrimSpaceLeft(s));
    TrimLeftBytes(s);
    TrimLeftBytes(TrimLeft(s));
    TrimLeftBytes(TrimBlanks(s));
  }

  lemma FoldBytes(s: string)
    requires Bytes(s)
    ensures Bytes(FoldProvider(s))
  {
    assert Bytes("xai");
    hide Replace, Lower;
    ReplaceUnderscores(s);
    var r := Replace(s, '_', "-");
    assert Bytes(r);
    TrimLeftBytes(r);
  }

  lemma ProviderBytes(s: string)
    requires Bytes(s)
    ensures Bytes(NormalizeProvider(s))
  {
    hide TrimSpace, TrimBlanks, FoldProvider, Bytes;
    TrimmedBytes(s);
    FoldBytes(TrimSpace(s));
  }

  lemma IdentityBytes(fields: Fields)
    requires BytesFields(fields)
    ensures AccountIdentityOf(fields).Some? ==> AllBytes(AccountIdentityOf(fields).value.parts)
    ensures HistoricalIdentityOf(fields).Some? ==> AllBytes(HistoricalIdentityOf(fields).value.parts)
  {
    hide TrimSpace, TrimBlanks, NormalizeProvider, Lower, Count, IndexOf, Tidy;
    TrimmedBytes(fields.authFile);
    TrimmedBytes(fields.source);
    TrimmedBytes(fields.authIndex);
    TrimmedBytes(fields.authAccountId);
    TrimmedBytes(fields.authProjectId);
    TrimmedBytes(fields.account);
    TrimmedBytes(fields.authLabel);
    ProviderBytes(fields.authProvider);
  }

  /** Equal valid account keys stand for the same kind, components and credential mark. */
  lemma EqualKeysSameIdentity(a: Fields, b: Fields)
    requires BytesFields(a) && BytesFields(b)
    ensures AccountKey(a) == AccountKey(b) <==> AccountIdentityOf(a) == AccountIdentityOf(b)
    ensures HistoricalAccountKey(a) == HistoricalAccountKey(b) <==> HistoricalIdentityOf(a) == HistoricalIdentityOf(b)
    ensures AccountKey(a) == HistoricalAccountKey(b) <==> AccountIdentityOf(a) == HistoricalIdentityOf(b)
  {
    hide *;
    KeysRenderIdentities(a);
    KeysRenderIdentities(b);
    IdentityBytes(a);
    IdentityBytes(b);
    RenderedInjective(AccountIdentityOf(a), AccountIdentityOf(b));
    RenderedInjective(HistoricalIdentityOf(a), HistoricalIdentityOf(b));
    RenderedInjective(AccountIdentityOf(a), HistoricalIdentityOf(b));
  }

  lemma RenderedInjective(a: Option<Identity>, b: Option<Identity>)
    requires a.Some? ==> AllBytes(a.value.parts)
    requires b.Some? ==> AllBytes(b.value.parts)
    ensures Rendered(a) == Rendered(b) <==> a == b
  {
    if a.Some? && b.Some? && Render(a.value) == Render(b.value) { RenderInjective(a.value, b.value); }
  }

  /** Codex credentials that differ in effective auth file or auth index never share a key. */
  lemma CodexCredentialsStaySeparate(a: Fields, b: Fields)
    requires BytesFields(a) && BytesFields(b)
    requires NormalizeProvider(a.authProvider) == "codex" && AccountKey(a).Some? && AccountKey(a) == AccountKey(b)
    ensures NormalizeProvider(b.authProvider) == "codex"
    ensures EffectiveAuthFile(a) == EffectiveAuthFile(b) && TrimSpace(a.authIndex) == TrimSpace(b.authIndex)
    ensures StableCodexMember(a) == StableCodexMember(b)
    ensures StableCodexMember(a) ==>
      && TrimBlanks(a.authAccountId) == TrimBlanks(b.authAccountId)
      && NormalizeCodexMemberSnapshot(a.account) == NormalizeCodexMemberSnapshot(b.account)
  {
    hide AccountKey, TrimSpace, TrimBlanks, EffectiveAuthFile, NormalizeCodexMemberSnapshot, ResolveCodexWorkspace,
         NormalizeProvider, Render;
    EqualKeysSameIdentity(a, b);
    KeysRenderIdentities(a);
    var x, y := AccountIdentityOf(a).value, AccountIdentityOf(b).value;
    assert x.kind == y.kind && x.parts == y.parts && x.credential == y.credential;
  }

  /** A new-format Codex key equals no historical key and no key of another provider. */
  lemma NewCodexKeysAreFresh(a: Fields, b: Fields)
    requires BytesFields(a) && BytesFields(b)
    requires NormalizeProvider(a.authProvider) == "codex" && AccountKey(a).Some?
    ensures AccountKey(a) != HistoricalAccountKey(b)
    ensures NormalizeProvider(b.authProvider) != "codex" ==> AccountKey(a) != AccountKey(b)
  {
    hide AccountKey, HistoricalAccountKey, TrimSpace, TrimBlanks, EffectiveAuthFile, NormalizeCodexMemberSnapshot,
         ResolveCodexWorkspace, NormalizeProvider, Render;
    EqualKeysSameIdentity(a, b);
    KeysRenderIdentities(a);
  }
}
