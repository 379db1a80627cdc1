/**
  The size contract of JSONL records, which is implemented twice: by the split
  function of the line scanner, and for a first record that is an object by
  counting its leading white space, the object and its tail.
 */
module JsonlRecords {
  import JsonCapture

  datatype Option<T> = None | Some(value: T)

  const MAX_RECORD: nat := 10 * 1024 * 1024

  /** Where the line starting at a position ends: at its newline, or at the end of the stream. */
  function LineEnd(s: string, from: nat): (r: nat)
    requires from <= |s|
    ensures from <= r <= |s|
    ensures r < |s| ==> s[r] == '\n'
    ensures forall i | from <= i < r :: s[i] != '\n'
    decreases |s| - from
  {
    if from == |s| || s[from] == '\n' then from else LineEnd(s, from + 1)
  }

  function DropCr(line: string): string {
    if |line| > 0 && line[|line| - 1] == '\r' then line[..|line| - 1] else line
  }

  /** One carriage return at the end goes, even one that is the whole line, and nothing else. */
  lemma OneCrGoes(line: string)
    ensures DropCr(line + "\r") == line
    ensures DropCr(line) == line <==> line == "" || line[|line| - 1] != '\r'
  {
  }

  // ----- The contract -----

  datatype Verdict = Record(line: string, next: nat) | TooLarge | End

  /** What a complete line is worth: without its terminator it must not exceed the limit. */
  function LineVerdict(s: string, from: nat): Verdict
    requires from <= |s|
  {
    var end := LineEnd(s, from);
    if end < |s| then
      var line := DropCr(s[from..end]);
      if |line| > MAX_RECORD then TooLarge else Record(line, end + 1)
    else if from == |s| then End
    else if |s| - from > MAX_RECORD then TooLarge
    else Record(s[from..], |s|)
  }

  // ----- splitBoundedJSONLRecord -----

  datatype Split = Token(advance: nat, line: string) | NeedMore | Reject

  function IndexOf(data: string): (r: Option<nat>)
    ensures r.Some? ==> r.value < |data| && data[r.value] == '\n' && forall i | 0 <= i < r.value :: data[i] != '\n'
    ensures r.None? ==> forall i | 0 <= i < |data| :: data[i] != '\n'
  {
    if |data| == 0 then None
    else if data[0] == '\n' then Some(0)
    else
      match IndexOf(data[1..])
      case Some(i) => Some(i + 1)
      case None => assert forall i | 0 < i < |data| :: data[i] == data[1..][i - 1]; None
  }

  function SplitRecord(data: string, atEof: bool): Split {
    match IndexOf(data)
    case Some(index) =>
      var line := DropCr(data[..index]);
      if |line| > MAX_RECORD then Reject else Token(index + 1, line)
    case None =>
      if atEof then
        if |data| == 0 then NeedMore
        else if |data| > MAX_RECORD then Reject
        else Token(|data|, data)
      else if |data| > MAX_RECORD + 1 || (|data| > MAX_RECORD && data[|data| - 1] != '\r') then Reject
      else NeedMore
  }

  /** The verdict on part of a line is the verdict on the whole line, whether or not the end of the stream was seen. */
  lemma EarlyVerdictIsFinal(s: string, from: nat, to: nat, atEof: bool)
    requires from <= to <= |s| && (atEof ==> to == |s|)
    ensures match SplitRecord(s[from..to], atEof)
            case Token(advance, line) => LineVerdict(s, from) == Record(line, from + advance)
            case Reject => LineVerdict(s, from) == TooLarge
            case NeedMore => to - from <= MAX_RECORD + 1 && (atEof ==> from == |s|)
  {
    var data, end := s[from..to], LineEnd(s, from);
    match IndexOf(data)
    case Some(index) =>
      assert s[from + index] == data[index];
      assert forall i | 0 <= i < index :: data[i] == s[from + i];
      assert end == from + index;
      assert s[from..end] == data[..index];
    case None =>
      assert forall i | from <= i < to :: s[i] == data[i - from];
      assert end >= to;
      if !atEof && |data| > MAX_RECORD {
        var line := s[from..end];
        if end == to { assert line == data; }
        assert end - from >= |data|;
        assert end == |s| ==> |s| - from > MAX_RECORD;
      }
  }

  // ----- The scanner -----

  /** The scanner's buffer: room for a record of the limit and a CRLF, and one byte more. */
  const BUFFER: nat := MAX_RECORD + 3

  datatype Stop = AtEnd | RecordTooLarge | BufferTooSmall | SourceBroke

  datatype Scanned = Line(line: string) | Stopped(why: Stop)

  /** What a read offers: so many bytes, and whether it reports the end of the stream, or its break, along with the last of them. */
  datatype Piece = Piece(size: nat, withEof: bool)

  class Scanner {
    const stream: string            // the bytes that arrive
    const broken: bool              // does an error follow them, instead of the end
    var start: nat
    var end: nat
    var eof: bool                   // the end or the error was seen

    constructor (stream: string, broken: bool, from: nat)
      requires from <= |stream|
      ensures this.stream == stream && this.broken == broken && start == from && end == from && !eof
    {
      this.stream, this.broken := stream, broken;
      start, end, eof := from, from, false;
    }

    ghost predicate Valid()
      reads this
    {
      start <= end <= |stream| && end - start <= BUFFER && (eof ==> end == |stream|)
    }

    /** Scan: takes pieces as they come, as much as fits the buffer, until the split function decides. */
    method Scan(pieces: seq<Piece>) returns (r: Scanned)
      requires Valid() && |pieces| >= |stream| - end && forall i | 0 <= i < |pieces| :: pieces[i].size > 0
      modifies this
      ensures Valid()
      ensures match LineVerdict(stream, old(start))
              case Record(line, next) => r == Line(line) && start == next
              case TooLarge => r == Stopped(RecordTooLarge) || (broken && r == Stopped(SourceBroke))
              case End => r == Stopped(if broken then SourceBroke else AtEnd)
    {
      hide LineVerdict, SplitRecord;
      var taken := 0;
      while true
        invariant start == old(start) && Valid()
        invariant |pieces| - taken >= |stream| - end
        decreases |stream| - end, !eof
      {
        if end > start || eof {
          EarlyVerdictIsFinal(stream, start, end, eof);
          var split := SplitRecord(stream[start..end], eof);
          if split == Reject {
            // An error of the source that was seen before is kept.
            return Stopped(if eof && broken then SourceBroke else RecordTooLarge);
          }
          if split.Token? {
            TokenWithin(stream[start..end], eof);
            start := start + split.advance;
            return Line(split.line);
          }
          if eof {
            NothingLeft(stream);
            return Stopped(if broken then SourceBroke else AtEnd);
          }
        }
        if end - start == BUFFER {
          return Stopped(BufferTooSmall);
        }
        if end == |stream| {
          eof := true;
          continue;
        }
        var piece := pieces[taken];
        taken := taken + 1;
        var room := BUFFER - (end - start);
        var size := if piece.size <= room then piece.size else room;
        end := if size <= |stream| - end then end + size else |stream|;
        eof := end == |stream| && piece.withEof;
      }
    }
  }

  lemma TokenWithin(data: string, atEof: bool)
    ensures SplitRecord(data, atEof).Token? ==> SplitRecord(data, atEof).advance <= |data|
  {
  }

  lemma NothingLeft(s: string)
    ensures LineVerdict(s, |s|) == End
  {
  }

  /** All the records of a stream, up to its end or the first record that is too large. */
  function Records(s: string, from: nat): (seq<string>, bool)
    requires from <= |s|
    decreases |s| - from
  {
    match LineVerdict(s, from)
    case End => ([], true)
    case TooLarge => ([], false)
    case Record(line, next) => if next <= from then ([], false) else var (rest, ok) := Records(s, next); ([line] + rest, ok)
  }

  lemma RecordMovesOn(s: string, from: nat)
    requires from <= |s| && LineVerdict(s, from).Record?
    ensures from < LineVerdict(s, from).next <= |s|
  {
  }

  /** The records from a line on: its own, and those behind it. */
  lemma RecordsNext(s: string, from: nat)
    requires from <= |s|
    ensures match LineVerdict(s, from)
            case End => Records(s, from) == ([], true)
            case TooLarge => Records(s, from) == ([], false)
            case Record(line, next) => from < next <= |s| && Records(s, from) == ([line] + Records(s, next).0, Records(s, next).1)
  {
    if LineVerdict(s, from).Record? { RecordMovesOn(s, from); }
    hide LineVerdict;
  }

  /**
    streamJSONLImport's loop over the scanner: the records do not depend on how
    the stream arrives. What arrived of a line before the source broke is a
    record like any other.
   */
  method ReadRecords(s: string, broken: bool, from: nat, pieces: seq<Piece>) returns (lines: seq<string>, ok: bool)
    requires from <= |s| && |pieces| >= |s| && forall i | 0 <= i < |pieces| :: pieces[i].size > 0
    ensures lines == Records(s, from).0 && ok == (Records(s, from).1 && !broken)
  {
    hide LineVerdict, Records;
    var scanner := new Scanner(s, broken, from);
    lines := [];
    while true
      invariant fresh(scanner) && scanner.stream == s && scanner.broken == broken && scanner.Valid()
      invariant Records(s, from).0 == lines + Records(s, scanner.start).0 && Records(s, from).1 == Records(s, scanner.start).1
      decreases |s| - scanner.start
    {
      ghost var at := scanner.start;
      var scanned := scanner.Scan(pieces);
      RecordsNext(s, at);
      if scanned.Stopped? {
        return lines, scanned.why == AtEnd;
      }
      ghost var rest := Records(s, scanner.start).0;
      assert lines + ([scanned.line] + rest) == lines + [scanned.line] + rest;
      lines := lines + [scanned.line];
    }
  }

  // ----- A first record that is an object -----

  predicate Blank(c: char) {
    c == ' ' || c == '\t' || c == '\r'
  }

  /** peekNonWhitespaceByte: where the first other byte is, and how many bytes of its line come before it. */
  method PeekNonWhitespace(s: string) returns (found: Option<nat>, prefix: nat)
    ensures found.Some? ==> found.value < |s| && !Blank(s[found.value]) && s[found.value] != '\n' && prefix <= found.value
    ensures found.Some? ==> forall i | found.value - prefix <= i < found.value :: Blank(s[i])
    ensures found.Some? ==> (found.value == prefix || s[found.value - prefix - 1] == '\n')
    ensures found.None? ==> forall i | 0 <= i < |s| :: Blank(s[i]) || s[i] == '\n'
  {
    prefix := 0;
    for pos := 0 to |s|
      invariant prefix <= pos && forall i | pos - prefix <= i < pos :: Blank(s[i])
      invariant pos == prefix || s[pos - prefix - 1] == '\n'
      invariant forall i | 0 <= i < pos :: Blank(s[i]) || s[i] == '\n'
    {
      if s[pos] == '\n' {
        prefix := 0;
      } else if Blank(s[pos]) {
        prefix := prefix + 1;
      } else {
        return Some(pos), prefix;
      }
    }
    found := None;
  }

  datatype Tail = Accepted(next: nat) | TailTooLarge | Trailing

  /** consumeJSONObjectJSONLRecordTail: counts the rest of the line, but not a CR right before the newline. */
  method ConsumeTail(s: string, from: nat, recordBytes: nat) returns (r: Tail)
    requires from <= |s| && recordBytes <= MAX_RECORD
    ensures var end := LineEnd(s, from);
      AllBlank(s, from, end) ==>
        r == if recordBytes + Counted(s, from, end) <= MAX_RECORD then Accepted(if end < |s| then end + 1 else end) else TailTooLarge
    ensures !AllBlank(s, from, LineEnd(s, from)) ==> !r.Accepted?
  {
    var pos, counted, pendingCr := from, recordBytes, false;
    ghost var end := LineEnd(s, from);
    while true
      invariant from <= pos <= end && AllBlank(s, from, pos)
      invariant pendingCr <==> pos > from && s[pos - 1] == '\r'
      invariant counted == recordBytes + (pos - from) - (if pendingCr then 1 else 0) && counted <= MAX_RECORD
      decreases |s| - pos
    {
      if pos == |s| {
        if pendingCr {
          counted := counted + 1;
          if counted > MAX_RECORD {
            return TailTooLarge;
          }
        }
        return Accepted(pos);
      }
      var value := s[pos];
      if pendingCr {
        if value == '\n' {
          return Accepted(pos + 1);
        }
        counted := counted + 1;
        if counted > MAX_RECORD {
          return TailTooLarge;
        }
        pendingCr := false;
      }
      if value == '\r' {
        pendingCr := true;
      } else if value == '\n' {
        return Accepted(pos + 1);
      } else if value == ' ' || value == '\t' {
        counted := counted + 1;
        if counted > MAX_RECORD {
          return TailTooLarge;
        }
      } else {
        return Trailing;
      }
      pos := pos + 1;
    }
  }

  predicate AllBlank(s: string, from: nat, to: nat)
    requires from <= to <= |s|
  {
    forall i | from <= i < to :: Blank(s[i])
  }

  /** The bytes of a tail that count: all but the CR of a CRLF. */
  function Counted(s: string, from: nat, end: nat): int
    requires from <= end <= |s|
  {
    if end < |s| && from < end && s[end - 1] == '\r' then end - from - 1 else end - from
  }

  /**
    The two implementations agree. For a line that is blank space, an object on
    that one line, and blank space, counting prefix, object and tail accepts
    exactly the lines the scanner accepts, and goes on at the same place.
   */
  lemma PathsAgree(s: string, start: nat, first: nat, tail: nat)
    requires start <= first < tail <= |s| && AllBlank(s, start, first)
    requires s[tail - 1] == '}' && forall i | first <= i < tail :: s[i] != '\n'
    requires AllBlank(s, tail, LineEnd(s, tail))
    ensures var end := LineEnd(s, tail);
      && LineEnd(s, start) == end
      && (LineVerdict(s, start).Record? <==> (first - start) + (tail - first) + Counted(s, tail, end) <= MAX_RECORD)
      && (LineVerdict(s, start).Record? ==> LineVerdict(s, start).next == if end < |s| then end + 1 else end)
  {
    hide LineEnd;
    var end := LineEnd(s, tail);
    assert forall i | start <= i < end :: s[i] != '\n';
    SameLine(s, start, tail);
    var line := s[start..end];
    assert |line| > 0 && line[|line| - 1] == s[end - 1];
    assert end > tail || s[end - 1] == '}';
    assert end == |s| ==> s[start..] == line;
  }

  lemma {:induction false} SameLine(s: string, from: nat, to: nat)
    requires from <= to <= |s| && forall i | from <= i < to :: s[i] != '\n'
    ensures LineEnd(s, from) == LineEnd(s, to)
    decreases |s| - from
  {
    if from < to { SameLine(s, from + 1, to); }
  }

  const MAX_OBJECT: nat := 64 * 1024 * 1024

  datatype First = Nothing | NotAnObject | NoObject(failure: JsonCapture.Failure) | FirstTooLarge | BadTail | FirstRecord(bytes: string, next: nat)

  /** An object of n bytes that has its line to itself. */
  ghost predicate OnItsLine(s: string, at: nat, n: nat)
    requires at <= |s|
  {
    JsonCapture.EndsAt(s[at..], n) && NoNewline(s[at..][..n]) && AllBlank(s, at + n, LineEnd(s, at + n))
  }

  /** What the outcome for an object at a place says about its line. */
  ghost predicate Tells(s: string, start: nat, at: nat, r: First)
    requires start <= at < |s|
  {
    match r
    case FirstRecord(bytes, next) =>
      && bytes <= s[at..] && JsonCapture.EndsAt(s[at..], |bytes|)
      && (OnItsLine(s, at, |bytes|) ==> LineVerdict(s, start).Record? && LineVerdict(s, start).next == next)
    case FirstTooLarge => forall n: nat | OnItsLine(s, at, n) :: LineVerdict(s, start) == TooLarge
    case BadTail => forall n: nat | JsonCapture.EndsAt(s[at..], n) :: !AllBlank(s, at + n, LineEnd(s, at + n))
    case _ => true
  }

  /** The end of the path: the object is counted with its prefix, then the rest of its line. */
  method ReadTail(s: string, start: nat, at: nat, bytes: string) returns (r: First)
    requires start <= at < |s| && AllBlank(s, start, at) && bytes <= s[at..] && JsonCapture.EndsAt(s[at..], |bytes|)
    ensures Tells(s, start, at, r) && (r.FirstRecord? || r.FirstTooLarge? || r.BadTail?)
  {
    hide LineVerdict, JsonCapture.After;
    assert |bytes| > 0;
    hide JsonCapture.EndsAt;
    var tail := at + |bytes|;
    ObjectOnItsLine(s, start, at, tail);
    forall n: nat | JsonCapture.EndsAt(s[at..], n) ensures n == |bytes| {
      JsonCapture.EndIsUnique(s[at..], n, |bytes|);
    }
    if at - start + |bytes| > MAX_RECORD {
      return FirstTooLarge;
    }
    var rest := ConsumeTail(s, tail, at - start + |bytes|);
    match rest {
      case Accepted(next) => r := FirstRecord(bytes, next);
      case TailTooLarge => r := FirstTooLarge;
      case Trailing => r := BadTail;
    }
  }

  /**
    The path of a first object that is not a legacy export: white space before
    it on its line, the captured object, and the rest of its line.
   */
  method ReadFirstObject(s: string, feeds: seq<JsonCapture.Feed>, disk: nat -> bool) returns (r: First, start: nat, at: nat)
    requires |feeds| >= |s|
    ensures r.Nothing? ==> forall i | 0 <= i < |s| :: Blank(s[i]) || s[i] == '\n'
    ensures !r.Nothing? ==> start <= at < |s| && AllBlank(s, start, at) && (start == 0 || s[start - 1] == '\n')
    ensures !r.Nothing? ==> !Blank(s[at]) && s[at] != '\n' && (r.NotAnObject? <==> s[at] != '{') && Tells(s, start, at, r)
    ensures r.NoObject? ==>
      || JsonCapture.Decides(s[at..], MAX_RECORD, MAX_OBJECT, JsonCapture.Failed(r.failure))
      || (r.failure.SourceFailed? && exists i :: 0 <= i < |feeds| && feeds[i].Broken?)
      || (r.failure.DiskFailed? && exists n :: !disk(n))
  {
    hide LineVerdict;
    var found, prefix := PeekNonWhitespace(s);
    if found.None? {
      return Nothing, 0, 0;
    }
    at := found.value;
    start := at - prefix;
    if s[at] != '{' {
      return NotAnObject, start, at;
    }
    var outcome, used := JsonCapture.Capture(s[at..], MAX_RECORD, MAX_OBJECT, feeds, disk);
    if outcome.Failed? {
      return NoObject(outcome.failure), start, at;
    }
    assert outcome.bytes <= s[at..];
    r := ReadTail(s, start, at, outcome.bytes);
  }

  predicate NoNewline(bytes: string) {
    forall i | 0 <= i < |bytes| :: bytes[i] != '\n'
  }

  /** PathsAgree for an object that was captured, with the verdict on lines that are not accepted. */
  lemma ObjectOnItsLine(s: string, start: nat, at: nat, tail: nat)
    requires start <= at < tail <= |s| && AllBlank(s, start, at) && JsonCapture.EndsAt(s[at..], tail - at)
    ensures NoNewline(s[at..][..tail - at]) && AllBlank(s, tail, LineEnd(s, tail)) ==>
      var end := LineEnd(s, tail);
      if tail - start + Counted(s, tail, end) <= MAX_RECORD
      then LineVerdict(s, start).Record? && LineVerdict(s, start).next == (if end < |s| then end + 1 else end)
      else LineVerdict(s, start) == TooLarge
  {
    if NoNewline(s[at..][..tail - at]) && AllBlank(s, tail, LineEnd(s, tail)) {
      LastIsBrace(s[at..], tail - at);
      assert s[tail - 1] == s[at..][tail - at - 1];
      assert forall i | at <= i < tail :: s[i] == s[at..][..tail - at][i - at];
      PathsAgree(s, start, at, tail);
      NotAtEnd(s, start);
    }
  }

  lemma NotAtEnd(s: string, start: nat)
    requires start < |s|
    ensures LineVerdict(s, start) != End
  {
  }

  /** Only a closing brace brings the depth down to zero. */
  lemma LastIsBrace(s: string, n: nat)
    requires JsonCapture.EndsAt(s, n)
    ensures s[n - 1] == '}'
  {
    assert JsonCapture.After(s, 1).depth == 1;
    if n > 1 { assert JsonCapture.After(s, n - 1).depth != 0; OpenUntil(s, n - 1, n); }
  }

  lemma {:induction false} OpenUntil(s: string, k: nat, n: nat)
    requires JsonCapture.EndsAt(s, n) && 1 <= k < n
    ensures JsonCapture.After(s, k).depth > 0
  {
    if k > 1 { OpenUntil(s, k - 1, n); }
  }
}
