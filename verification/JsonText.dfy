/**
  JSON texts, and that the capture scanner finds where they end: whatever an
  object holds, whatever blanks stand between its tokens and whichever
  characters its strings escape, its text is captured to its own last brace.
 */
module JsonText {
  import opened JsonCapture

  datatype Json = Scalar(text: string) | Text(content: string) | Array(items: seq<Json>) | Object(members: seq<Member>)

  datatype Member = Member(name: string, value: Json)

  /** How a text is written: the blanks between tokens, and how a character in a string is; as itself when its escape is empty. */
  datatype Style = Style(gap: string, escape: char -> string)

  /** Nothing that opens or closes anything. */
  ghost predicate Calm(text: string) {
    forall i | 0 <= i < |text| :: text[i] !in {'"', '{', '}'}
  }

  /** A backslash and what it stands before: \" or \n or the letter u and four digits. */
  ghost predicate IsEscape(text: string) {
    |text| >= 2 && text[0] == '\\' && forall i | 2 <= i < |text| :: text[i] !in {'"', '\\'}
  }

  /** Quote and backslash are escaped; braces need not be. */
  ghost predicate Proper(style: Style) {
    && Calm(style.gap) && style.escape('"') != "" && style.escape('\\') != ""
    && forall c :: style.escape(c) == "" || IsEscape(style.escape(c))
  }

  ghost predicate WellFormed(v: Json) {
    match v
    case Scalar(text) => Calm(text)
    case Text(_) => true
    case Array(items) => forall i | 0 <= i < |items| :: WellFormed(items[i])
    case Object(members) => forall i | 0 <= i < |members| :: WellFormed(members[i].value)
  }

  // ----- Printing -----

  function Letters(style: Style, content: string): string {
    if |content| == 0 then ""
    else
      var n := |content| - 1;
      var escape := style.escape(content[n]);
      Letters(style, content[..n]) + if escape == "" then [content[n]] else escape
  }

  function Quoted(style: Style, content: string): string {
    "\"" + Letters(style, content) + "\""
  }

  function Print(style: Style, v: Json): string {
    match v
    case Scalar(text) => text
    case Text(content) => Quoted(style, content)
    case Array(items) => "[" + style.gap + PrintItems(style, items) + "]"
    case Object(members) => "{" + style.gap + PrintMembers(style, members) + "}"
  }

  function PrintItems(style: Style, items: seq<Json>): string {
    if |items| == 0 then ""
    else
      var n := |items| - 1;
      PrintItems(style, items[..n]) + (if n == 0 then "" else "," + style.gap) + Print(style, items[n]) + style.gap
  }

  function PrintMembers(style: Style, members: seq<Member>): string {
    if |members| == 0 then ""
    else
      var n := |members| - 1;
      PrintMembers(style, members[..n]) + (if n == 0 then "" else "," + style.gap) + PrintMember(style, members[n])
  }

  function PrintMember(style: Style, member: Member): string {
    Quoted(style, member.name) + (style.gap + ":" + style.gap) + Print(style, member.value) + style.gap
  }

  // ----- The scanner over a text -----

  function Over(s: Scan, text: string): Scan {
    if |text| == 0 then s else Advance(Over(s, text[..|text| - 1]), text[|text| - 1])
  }

  lemma {:induction false} OverSplit(s: Scan, a: string, b: string)
    ensures Over(s, a + b) == Over(Over(s, a), b)
  {
    hide Advance;
    if |b| == 0 {
      assert a + b == a;
    } else {
      var n := |b| - 1;
      OverSplit(s, a, b[..n]);
      assert (a + b)[..|a + b| - 1] == a + b[..n];
    }
  }

  lemma {:induction false} AfterIsOver(s: string, n: nat)
    requires 1 <= n <= |s|
    ensures After(s, n) == Over(Scan(1, false, false), s[1..n])
  {
    hide Advance;
    if n > 1 {
      AfterIsOver(s, n - 1);
      assert s[1..n][..n - 2] == s[1..n - 1];
    }
  }

  /** Reading the text leads from one state to another, and the depth never falls below a bound on the way. */
  ghost predicate Leads(s: Scan, text: string, t: Scan, depth: int) {
    Over(s, text) == t && forall k | 0 <= k <= |text| :: Over(s, text[..k]).depth >= depth
  }

  function Outside(depth: int): Scan {
    Scan(depth, false, false)
  }

  function Inside(depth: int): Scan {
    Scan(depth, true, false)
  }

  lemma LeadsOn(s: Scan, a: string, t: Scan, b: string, u: Scan, depth: int)
    requires Leads(s, a, t, depth) && Leads(t, b, u, depth)
    ensures Leads(s, a + b, u, depth)
  {
    hide Over;
    OverSplit(s, a, b);
    forall k | 0 <= k <= |a + b| ensures Over(s, (a + b)[..k]).depth >= depth {
      if k <= |a| {
        assert (a + b)[..k] == a[..k];
      } else {
        assert (a + b)[..k] == a + b[..k - |a|];
        OverSplit(s, a, b[..k - |a|]);
      }
    }
  }

  lemma OneLeads(s: Scan, c: char, depth: int)
    requires s.depth >= depth && Advance(s, c).depth >= depth
    ensures Leads(s, [c], Advance(s, c), depth)
  {
    hide Advance;
    assert [c][..|[c]| - 1] == "" && [c][..0] == "" && [c][..1] == [c];
    assert Over(s, "") == s && Over(s, [c]) == Advance(s, c);
  }

  /** A text whose characters all leave the state alone. */
  lemma {:induction false} StillLeads(s: Scan, text: string)
    requires forall i | 0 <= i < |text| :: Advance(s, text[i]) == s
    ensures Leads(s, text, s, s.depth)
  {
    hide Advance;
    if |text| > 0 {
      var n := |text| - 1;
      StillLeads(s, text[..n]);
      OneLeads(s, text[n], s.depth);
      LeadsOn(s, text[..n], s, [text[n]], s, s.depth);
      assert text == text[..n] + [text[n]];
    } else {
      assert text[..0] == "";
    }
  }

  lemma EscapeLeads(depth: int, text: string)
    requires IsEscape(text)
    ensures Leads(Inside(depth), text, Inside(depth), depth)
  {
    hide Leads;
    var inside := Inside(depth);
    OneLeads(inside, text[0], depth);
    OneLeads(Scan(depth, true, true), text[1], depth);
    LeadsOn(inside, [text[0]], Scan(depth, true, true), [text[1]], inside, depth);
    StillLeads(inside, text[2..]);
    LeadsOn(inside, [text[0]] + [text[1]], inside, text[2..], inside, depth);
    assert text == [text[0]] + [text[1]] + text[2..];
  }

  lemma {:induction false} LettersLead(style: Style, content: string, depth: int)
    requires Proper(style)
    ensures Leads(Inside(depth), Letters(style, content), Inside(depth), depth)
  {
    hide Leads, IsEscape;
    if |content| == 0 {
      StillLeads(Inside(depth), "");
    } else {
      var n := |content| - 1;
      LettersLead(style, content[..n], depth);
      var escape := style.escape(content[n]);
      if escape == "" {
        StillLeads(Inside(depth), [content[n]]);
        LeadsOn(Inside(depth), Letters(style, content[..n]), Inside(depth), [content[n]], Inside(depth), depth);
      } else {
        EscapeLeads(depth, escape);
        LeadsOn(Inside(depth), Letters(style, content[..n]), Inside(depth), escape, Inside(depth), depth);
      }
    }
  }

  /** Text that leads from outside any string, at one depth, back there. */
  ghost predicate Level(text: string, depth: int) {
    Leads(Outside(depth), text, Outside(depth), depth)
  }

  lemma LevelJoins(a: string, b: string, depth: int)
    requires Level(a, depth) && Level(b, depth)
    ensures Level(a + b, depth)
  {
    LeadsOn(Outside(depth), a, Outside(depth), b, Outside(depth), depth);
  }

  lemma CalmIsLevel(text: string, depth: int)
    requires Calm(text)
    ensures Level(text, depth)
  {
    StillLeads(Outside(depth), text);
  }

  lemma QuotedIsLevel(style: Style, content: string, depth: int)
    requires Proper(style)
    ensures Level(Quoted(style, content), depth)
  {
    hide Leads, Proper, Letters;
    var text := Letters(style, content);
    OneLeads(Outside(depth), '"', depth);
    LettersLead(style, content, depth);
    LeadsOn(Outside(depth), "\"", Inside(depth), text, Inside(depth), depth);
    OneLeads(Inside(depth), '"', depth);
    LeadsOn(Outside(depth), "\"" + text, Inside(depth), "\"", Outside(depth), depth);
  }

  /** Between its braces the text of an object is one level deeper. */
  lemma BracedIsLevel(text: string, depth: int)
    requires Level(text, depth + 1)
    ensures Level("{" + text + "}", depth)
  {
    OneLeads(Outside(depth), '{', depth);
    assert Leads(Outside(depth + 1), text, Outside(depth + 1), depth);
    LeadsOn(Outside(depth), "{", Outside(depth + 1), text, Outside(depth + 1), depth);
    OneLeads(Outside(depth + 1), '}', depth);
    LeadsOn(Outside(depth), "{" + text, Outside(depth + 1), "}", Outside(depth), depth);
  }

  lemma {:induction false} PrintIsLevel(style: Style, v: Json, depth: int)
    requires Proper(style) && WellFormed(v)
    ensures Level(Print(style, v), depth)
    decreases v
  {
    hide Level, Proper;
    match v
    case Scalar(text) => CalmIsLevel(text, depth);
    case Text(content) => QuotedIsLevel(style, content, depth);
    case Array(items) =>
      CalmIsLevel("[" + style.gap, depth) by { GapIsCalm(style); }
      ItemsAreLevel(style, items, depth);
      LevelJoins("[" + style.gap, PrintItems(style, items), depth);
      CalmIsLevel("]", depth);
      LevelJoins("[" + style.gap + PrintItems(style, items), "]", depth);
    case Object(members) =>
      InnerIsLevel(style, members, depth + 1);
      BracedIsLevel(style.gap + PrintMembers(style, members), depth);
      assert Print(style, v) == "{" + (style.gap + PrintMembers(style, members)) + "}";
  }

  lemma GapIsCalm(style: Style)
    requires Proper(style)
    ensures Calm(style.gap) && Calm("[" + style.gap) && Calm("," + style.gap) && Calm(style.gap + ":" + style.gap)
  {
  }

  lemma {:induction false} InnerIsLevel(style: Style, members: seq<Member>, depth: int)
    requires Proper(style) && forall i | 0 <= i < |members| :: WellFormed(members[i].value)
    ensures Level(style.gap + PrintMembers(style, members), depth)
    decreases members, 1
  {
    hide Level, Proper;
    GapIsCalm(style);
    CalmIsLevel(style.gap, depth);
    MembersAreLevel(style, members, depth);
    LevelJoins(style.gap, PrintMembers(style, members), depth);
  }

  lemma {:induction false} ItemsAreLevel(style: Style, items: seq<Json>, depth: int)
    requires Proper(style) && forall i | 0 <= i < |items| :: WellFormed(items[i])
    ensures Level(PrintItems(style, items), depth)
    decreases items, 0
  {
    hide Level, Proper;
    GapIsCalm(style);
    if |items| == 0 {
      CalmIsLevel("", depth);
    } else {
      var n := |items| - 1;
      var separator := if n == 0 then "" else "," + style.gap;
      ItemsAreLevel(style, items[..n], depth);
      PrintIsLevel(style, items[n], depth);
      CalmIsLevel(separator, depth);
      CalmIsLevel(style.gap, depth);
      LevelJoins(PrintItems(style, items[..n]), separator, depth);
      LevelJoins(PrintItems(style, items[..n]) + separator, Print(style, items[n]), depth);
      LevelJoins(PrintItems(style, items[..n]) + separator + Print(style, items[n]), style.gap, depth);
    }
  }

  lemma {:induction false} MembersAreLevel(style: Style, members: seq<Member>, depth: int)
    requires Proper(style) && forall i | 0 <= i < |members| :: WellFormed(members[i].value)
    ensures Level(PrintMembers(style, members), depth)
    decreases members, 0
  {
    hide Level, Proper;
    GapIsCalm(style);
    if |members| == 0 {
      CalmIsLevel("", depth);
    } else {
      var n := |members| - 1;
      var separator := if n == 0 then "" else "," + style.gap;
      MembersAreLevel(style, members[..n], depth);
      PrintIsLevel(style, members[n].value, depth);
      CalmIsLevel(separator, depth);
      LevelJoins(PrintMembers(style, members[..n]), separator, depth);
      MemberIsLevel(style, members[n], depth);
      LevelJoins(PrintMembers(style, members[..n]) + separator, PrintMember(style, members[n]), depth);
    }
  }

  lemma MemberIsLevel(style: Style, member: Member, depth: int)
    requires Proper(style) && Level(Print(style, member.value), depth)
    ensures Level(PrintMember(style, member), depth)
  {
    hide Level, Proper, Quoted, Print;
    GapIsCalm(style);
    var name, value := Quoted(style, member.name), Print(style, member.value);
    QuotedIsLevel(style, member.name, depth);
    CalmIsLevel(style.gap + ":" + style.gap, depth);
    CalmIsLevel(style.gap, depth);
    LevelJoins(name, style.gap + ":" + style.gap, depth);
    LevelJoins(name + (style.gap + ":" + style.gap), value, depth);
    LevelJoins(name + (style.gap + ":" + style.gap) + value, style.gap, depth);
  }

  // ----- What the capture does with an object -----

  /** Before its last brace the object is open, with it it is closed. */
  lemma BracedEnds(text: string, more: string)
    requires Level(text, 1)
    ensures EndsAt("{" + text + "}" + more, |text| + 2)
  {
    hide After, Over;
    var s := "{" + text + "}" + more;
    forall n | 1 <= n < |text| + 2 ensures After(s, n) == Over(Outside(1), text[..n - 1]) {
      AfterIsOver(s, n);
      assert s[1..n] == text[..n - 1];
    }
    assert text[..|text|] == text;
    assert After(s, |text| + 1) == Outside(1);
    LastStep(s, |text| + 2);
  }

  lemma LastStep(s: string, n: nat)
    requires 2 <= n <= |s| && After(s, n - 1) == Outside(1) && s[n - 1] == '}'
    ensures After(s, n).depth == 0
  {
  }

  /** Every object ends exactly where its text does, whatever follows. */
  lemma ObjectEnds(style: Style, o: Json, more: string)
    requires Proper(style) && WellFormed(o) && o.Object?
    ensures EndsAt(Print(style, o) + more, |Print(style, o)|)
  {
    hide Level, EndsAt, Proper, PrintMembers;
    var text := style.gap + PrintMembers(style, o.members);
    InnerIsLevel(style, o.members, 1);
    BracedEnds(text, more);
    assert Print(style, o) == "{" + text + "}";
  }

  lemma ObjectOpens(style: Style, o: Json)
    requires o.Object?
    ensures |Print(style, o)| >= 2 && Print(style, o)[0] == '{'
  {
  }

  /**
    What a capture returns, by its contract, for a stream that starts with an
    object when neither source nor disk fails: the object's text, with the reader
    right behind it, if the text fits the limit, and a refusal if it does not.
   */
  lemma ObjectIsCaptured(style: Style, o: Json, more: string, memoryBytes: int, maxBytes: int,
                         feeds: seq<Feed>, disk: nat -> bool, outcome: Outcome, pos: nat)
    requires Proper(style) && WellFormed(o) && o.Object? && 0 < memoryBytes <= maxBytes
    requires (forall i | 0 <= i < |feeds| :: feeds[i].UpTo?) && forall n :: disk(n)
    requires Decides(Print(style, o) + more, memoryBytes, maxBytes, outcome) || Breaks(outcome, pos, memoryBytes, feeds, disk)
    requires outcome.Object? ==> pos == |outcome.bytes|
    ensures var text := Print(style, o);
      if |text| <= maxBytes then outcome == Outcome.Object(text, |text| <= memoryBytes) && pos == |text|
      else outcome == Failed(TooLarge)
  {
    hide After, Proper, Print;
    var text := Print(style, o);
    var s := text + more;
    ObjectOpens(style, o);
    ObjectEnds(style, o, more);
    assert s[..|text|] == text;
    match outcome
    case Object(bytes, inMemory) => EndIsUnique(s, |bytes|, |text|);
    case _ =>
  }

  /** Cut off before its last brace, the same object is not captured. */
  lemma CutObjectIsRefused(style: Style, o: Json, n: nat, memoryBytes: int, maxBytes: int, outcome: Outcome)
    requires Proper(style) && WellFormed(o) && o.Object? && 0 < memoryBytes <= maxBytes && 1 <= n < |Print(style, o)|
    requires Decides(Print(style, o)[..n], memoryBytes, maxBytes, outcome)
    ensures outcome == Failed(if n <= maxBytes then UnexpectedEnd else TooLarge)
  {
    hide After, Proper, Print;
    var text := Print(style, o);
    ObjectOpens(style, o);
    ObjectEnds(style, o, "");
    assert text + "" == text;
    forall k | 1 <= k <= n ensures After(text[..n], k) == After(text, k) { AfterOfPrefix(text, n, k); }
  }

  lemma {:induction false} AfterOfPrefix(s: string, n: nat, k: nat)
    requires 1 <= k <= n <= |s|
    ensures After(s[..n], k) == After(s, k)
  {
    if k > 1 { AfterOfPrefix(s, n, k - 1); }
  }
}
