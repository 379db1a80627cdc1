/**
  Capturing one JSON object from a buffered reader, whatever the reader's
  buffer does: the scanner tracks braces, strings and escapes, and the bytes
  are kept in memory up to a limit and spilled to a file beyond it.
 */
module JsonCapture {

  datatype Option<T> = None | Some(value: T)

  // ----- The scanner -----

  datatype Scan = Scan(depth: int, inString: bool, escaped: bool)

  function Advance(s: Scan, c: char): Scan {
    if s.inString then
      if s.escaped then s.(escaped := false)
      else if c == '\\' then s.(escaped := true)
      else if c == '"' then s.(inString := false)
      else s
    else if c == '"' then s.(inString := true)
    else if c == '{' then s.(depth := s.depth + 1)
    else if c == '}' then s.(depth := s.depth - 1)
    else s
  }

  /** The state after the opening brace and the bytes up to n. */
  function After(s: string, n: nat): Scan
    requires 1 <= n <= |s|
  {
    if n == 1 then Scan(1, false, false) else Advance(After(s, n - 1), s[n - 1])
  }

  /** The object that starts at the beginning ends here: the brace depth outside strings is back at zero for the first time. */
  ghost predicate EndsAt(s: string, n: nat) {
    1 <= n <= |s| && After(s, n).depth == 0 && forall k | 1 <= k < n :: After(s, k).depth != 0
  }

  lemma EndIsUnique(s: string, n: nat, m: nat)
    requires EndsAt(s, n) && EndsAt(s, m)
    ensures n == m
  {
    hide After;
  }

  // ----- The captured object -----

  datatype Appended = Kept | TooMuch | NotWritten

  class Captured {
    const memoryBytes: nat
    const maxBytes: nat
    const disk: nat -> bool  // does the n-th operation on the temporary file succeed
    var buffer: Option<string>
    var file: Option<string>
    var size: nat
    var operations: nat

    constructor (memoryBytes: nat, maxBytes: nat, disk: nat -> bool)
      ensures this.memoryBytes == memoryBytes && this.maxBytes == maxBytes && this.disk == disk
      ensures Valid() && Contents() == "" && operations == 0
    {
      this.memoryBytes, this.maxBytes, this.disk := memoryBytes, maxBytes, disk;
      buffer, file, size, operations := Some(""), None, 0, 0;
    }

    /** In memory while it fits the memory limit, and in the file from then on. */
    ghost predicate Valid()
      reads this
    {
      && (buffer.Some? <==> file.None?) && size == |Contents()|
      && (file.None? <==> size <= memoryBytes)
    }

    function Contents(): string
      reads this
    {
      if file.Some? then file.value else if buffer.Some? then buffer.value else ""
    }

    /** Create, chmod, write, flush or seek. */
    method Operate() returns (ok: bool)
      modifies `operations
      ensures ok == disk(old(operations))
    {
      operations := operations + 1;
      ok := disk(operations - 1);
    }

    method Append(payload: string) returns (r: Appended)
      requires Valid() && size <= maxBytes
      modifies this
      ensures r != NotWritten ==> Valid() && size <= maxBytes
      ensures r == TooMuch <==> old(size) + |payload| > maxBytes
      ensures r == TooMuch ==> Contents() == old(Contents())
      ensures r == Kept ==> Contents() == old(Contents()) + payload
      ensures r == NotWritten ==> old(size) + |payload| > memoryBytes && exists n :: !disk(n)
    {
      if |payload| > maxBytes - size {
        return TooMuch;
      }
      if file.None? && size + |payload| <= memoryBytes {
        buffer := Some(buffer.value + payload);
        size := size + |payload|;
        return Kept;
      }
      if file.None? {
        var created := Operate();
        if !created {
          return NotWritten;
        }
        file := Some("");
        var restricted := Operate();
        if !restricted {
          return NotWritten;
        }
        var moved := Operate();
        if !moved {
          return NotWritten;
        }
        file := Some(buffer.value);
        buffer := None;
      }
      var written := Operate();
      if !written {
        return NotWritten;
      }
      file := Some(file.value + payload);
      size := size + |payload|;
      return Kept;
    }

    /** Before the capture is handed over the file is flushed and rewound. */
    method Rewind() returns (ok: bool)
      requires Valid()
      modifies `operations
      ensures Valid() && Contents() == old(Contents())
      ensures !ok ==> size > memoryBytes && exists n :: !disk(n)
    {
      if file.None? {
        return true;
      }
      ok := Operate();
      if ok {
        ok := Operate();
      }
    }

    /** The bytes, if they are in memory. */
    method Bytes() returns (r: Option<string>)
      requires Valid()
      ensures r == if size <= memoryBytes then Some(Contents()) else None
    {
      r := buffer;
    }
  }

  // ----- The reader -----

  /** What a ReadSlice call finds in the buffer: so many bytes before it is full, or before the source breaks. */
  datatype Feed = UpTo(n: nat) | Broken(n: nat)

  datatype Ending = Delimiter | BufferFull | EndOfFile | ReadError

  ghost predicate NoBrace(s: string, from: nat, to: nat) {
    from <= to <= |s| && forall i | from <= i < to :: s[i] != '}'
  }

  /** ReadSlice('}') from a position: where it stops and why. */
  method ReadSlice(s: string, pos: nat, feed: Feed) returns (end: nat, ending: Ending)
    requires pos <= |s|
    ensures pos <= end <= |s|
    ensures ending == Delimiter ==> pos < end && NoBrace(s, pos, end - 1) && s[end - 1] == '}'
    ensures ending != Delimiter ==> NoBrace(s, pos, end)
    ensures ending == BufferFull ==> pos < end
    ensures ending == EndOfFile ==> end == |s|
    ensures ending == ReadError ==> feed.Broken?
  {
    end := pos;
    while end < |s|
      invariant pos <= end <= |s| && NoBrace(s, pos, end)
    {
      if feed.Broken? && end - pos >= feed.n {
        return end, ReadError;
      }
      if s[end] == '}' {
        return end + 1, Delimiter;
      }
      end := end + 1;
      if feed.UpTo? && end - pos >= feed.n {
        return end, BufferFull;
      }
    }
    ending := if feed.Broken? then ReadError else EndOfFile;
  }

  // ----- captureJSONObjectWithLimits -----

  datatype Failure = InvalidLimits | NothingToRead | Unsupported | TooLarge | UnexpectedEnd | SourceFailed | DiskFailed

  datatype Outcome = Object(bytes: string, inMemory: bool) | Failed(failure: Failure)

  /** What the stream alone decides, however it arrives. */
  ghost predicate Decides(s: string, memoryBytes: int, maxBytes: int, outcome: Outcome) {
    if memoryBytes <= 0 || maxBytes < memoryBytes then outcome == Failed(InvalidLimits)
    else if s == "" then outcome == Failed(NothingToRead)
    else if s[0] != '{' then outcome == Failed(Unsupported)
    else
      match outcome
      case Object(bytes, inMemory) =>
        EndsAt(s, |bytes|) && bytes == s[..|bytes|] && |bytes| <= maxBytes && (inMemory <==> |bytes| <= memoryBytes)
      case Failed(TooLarge) => maxBytes < |s| && forall n | 1 <= n <= maxBytes :: After(s, n).depth != 0
      case Failed(UnexpectedEnd) => |s| <= maxBytes && forall n | 1 <= n <= |s| :: After(s, n).depth != 0
      case _ => false
  }

  /** The source or the disk failed, which the stream alone does not decide; the disk only once it was needed. */
  ghost predicate Breaks(outcome: Outcome, pos: nat, memoryBytes: int, feeds: seq<Feed>, disk: nat -> bool) {
    || (outcome == Failed(SourceFailed) && exists i :: 0 <= i < |feeds| && feeds[i].Broken?)
    || (outcome == Failed(DiskFailed) && pos > memoryBytes && exists n :: !disk(n))
  }

  method Capture(s: string, memoryBytes: int, maxBytes: int, feeds: seq<Feed>, disk: nat -> bool) returns (outcome: Outcome, pos: nat)
    requires |feeds| >= |s|
    ensures Decides(s, memoryBytes, maxBytes, outcome) || Breaks(outcome, pos, memoryBytes, feeds, disk)
    ensures pos <= |s|
    ensures outcome.Object? ==> pos == |outcome.bytes|
  {
    pos := 0;
    if memoryBytes <= 0 || maxBytes < memoryBytes {
      return Failed(InvalidLimits), 0;
    }
    if s == "" {
      return Failed(NothingToRead), 0;
    }
    if s[0] != '{' {
      return Failed(Unsupported), 1;
    }
    outcome, pos := CaptureObject(s, memoryBytes, maxBytes, feeds, disk);
  }

  /** The loop, once a brace was read. */
  method CaptureObject(s: string, memoryBytes: nat, maxBytes: nat, feeds: seq<Feed>, disk: nat -> bool)
    returns (outcome: Outcome, pos: nat)
    requires 0 < memoryBytes <= maxBytes && |feeds| >= |s| > 0 && s[0] == '{'
    ensures Decides(s, memoryBytes, maxBytes, outcome) || Breaks(outcome, pos, memoryBytes, feeds, disk)
    ensures pos <= |s|
    ensures outcome.Object? ==> pos == |outcome.bytes|
  {
    hide After, NoBrace, Decides, Breaks;
    AfterBrace(s);
    var captured := new Captured(memoryBytes, maxBytes, disk);
    pos := 1;
    var kept := captured.Append([s[0]]);
    assert kept == Kept && captured.Contents() == s[..1];
    var scan := Scan(1, false, false);
    var calls := 0;
    while scan.depth > 0
      invariant 1 <= pos <= |s| && calls < pos
      invariant fresh(captured) && captured.Valid() && captured.memoryBytes == memoryBytes && captured.maxBytes == maxBytes
      invariant captured.disk == disk && captured.Contents() == s[..pos] && pos <= maxBytes
      invariant scan == After(s, pos) && forall k | 1 <= k < pos :: After(s, k).depth > 0
      invariant scan.depth >= 0
      decreases |s| - pos
    {
      var end, ending;
      end, ending, kept := AppendChunk(captured, s, pos, feeds[calls]);
      if kept == TooMuch {
        NeverClosed(s, memoryBytes, maxBytes, end, TooLarge);
        return Failed(TooLarge), end;
      }
      if kept == NotWritten {
        DiskBreaks(end, memoryBytes, feeds, disk);
        return Failed(DiskFailed), end;
      }
      scan := ScanChunk(s, pos, end, scan);
      if scan.depth > 0 && ending == EndOfFile {
        NeverClosed(s, memoryBytes, maxBytes, end, UnexpectedEnd);
        return Failed(UnexpectedEnd), end;
      }
      if scan.depth > 0 && ending == ReadError {
        SourceBreaks(end, memoryBytes, feeds, calls, disk);
        return Failed(SourceFailed), end;
      }
      pos := end;
      calls := calls + 1;
    }
    var ready := captured.Rewind();
    if !ready {
      DiskBreaks(pos, memoryBytes, feeds, disk);
      return Failed(DiskFailed), pos;
    }
    outcome := Object(captured.Contents(), captured.file.None?);
    Closed(s, memoryBytes, maxBytes, pos);
  }

  /** One chunk, read and appended; it can close the object only with its last byte. */
  method AppendChunk(captured: Captured, s: string, pos: nat, feed: Feed) returns (end: nat, ending: Ending, kept: Appended)
    requires captured.Valid() && 1 <= pos <= |s| && captured.Contents() == s[..pos] && pos <= captured.maxBytes
    requires After(s, pos).depth > 0
    modifies captured
    ensures pos <= end <= |s| && (kept == TooMuch <==> end > captured.maxBytes)
    ensures kept == Kept ==> captured.Valid() && captured.Contents() == s[..end]
    ensures kept == NotWritten ==> end > captured.memoryBytes && exists n :: !captured.disk(n)
    ensures forall k | pos <= k < end :: After(s, k).depth > 0
    ensures After(s, end).depth >= 0 && (ending != Delimiter ==> After(s, end).depth > 0)
    ensures ending == EndOfFile ==> end == |s|
    ensures ending == ReadError ==> feed.Broken?
    ensures ending == Delimiter || ending == BufferFull ==> pos < end
  {
    hide After, NoBrace;
    end, ending := ReadSlice(s, pos, feed);
    ChunkStaysOpen(s, pos, end, ending);
    kept := captured.Append(s[pos..end]);
    assert s[..end] == s[..pos] + s[pos..end];
  }

  /** The two ways in which the bytes decide that there is no object. */
  lemma NeverClosed(s: string, memoryBytes: nat, maxBytes: nat, end: nat, failure: Failure)
    requires 0 < memoryBytes <= maxBytes && end <= |s| && |s| > 0 && s[0] == '{'
    requires forall k | 1 <= k < end :: After(s, k).depth > 0
    requires (failure == TooLarge && maxBytes < end)
      || (failure == UnexpectedEnd && end == |s| <= maxBytes && After(s, end).depth > 0)
    ensures Decides(s, memoryBytes, maxBytes, Failed(failure))
  {
    hide After;
  }

  lemma Closed(s: string, memoryBytes: nat, maxBytes: nat, pos: nat)
    requires 0 < memoryBytes <= maxBytes && 1 <= pos <= |s| && s[0] == '{' && pos <= maxBytes
    requires After(s, pos).depth == 0 && forall k | 1 <= k < pos :: After(s, k).depth > 0
    ensures Decides(s, memoryBytes, maxBytes, Object(s[..pos], pos <= memoryBytes))
  {
    hide After;
  }

  lemma DiskBreaks(pos: nat, memoryBytes: nat, feeds: seq<Feed>, disk: nat -> bool)
    requires pos > memoryBytes && exists n :: !disk(n)
    ensures Breaks(Failed(DiskFailed), pos, memoryBytes, feeds, disk)
  {
  }

  lemma SourceBreaks(pos: nat, memoryBytes: nat, feeds: seq<Feed>, i: nat, disk: nat -> bool)
    requires i < |feeds| && feeds[i].Broken?
    ensures Breaks(Failed(SourceFailed), pos, memoryBytes, feeds, disk)
  {
  }

  lemma AfterBrace(s: string)
    requires |s| > 0
    ensures After(s, 1) == Scan(1, false, false)
  {
  }

  /** The loop over the bytes of one chunk. */
  method ScanChunk(s: string, pos: nat, end: nat, start: Scan) returns (scan: Scan)
    requires 1 <= pos <= end <= |s| && start == After(s, pos)
    ensures scan == After(s, end)
  {
    scan := start;
    for i := pos to end
      invariant scan == After(s, i)
    {
      scan := Advance(scan, s[i]);
    }
  }

  lemma {:induction false} NoBraceKeepsOpen(s: string, pos: nat, n: nat)
    requires 1 <= pos <= n && NoBrace(s, pos, n)
    ensures After(s, n).depth >= After(s, pos).depth
  {
    if n > pos { NoBraceKeepsOpen(s, pos, n - 1); }
  }

  /** A chunk that ends at the first closing brace can close the object only with its last byte. */
  lemma ChunkStaysOpen(s: string, pos: nat, end: nat, ending: Ending)
    requires 1 <= pos <= end <= |s| && After(s, pos).depth > 0
    requires if ending == Delimiter then pos < end && NoBrace(s, pos, end - 1) else NoBrace(s, pos, end)
    ensures forall k | pos <= k < end :: After(s, k).depth > 0
    ensures After(s, end).depth >= 0
    ensures ending != Delimiter ==> After(s, end).depth > 0
  {
    forall k | pos <= k < end ensures After(s, k).depth > 0 { NoBraceKeepsOpen(s, pos, k); }
    if ending == Delimiter {
      NoBraceKeepsOpen(s, pos, end - 1);
    } else {
      NoBraceKeepsOpen(s, pos, end);
    }
  }

  /** The stream decides at most one outcome. */
  lemma DecidesOne(s: string, memoryBytes: int, maxBytes: int, a: Outcome, b: Outcome)
    requires Decides(s, memoryBytes, maxBytes, a) && Decides(s, memoryBytes, maxBytes, b)
    ensures a == b
  {
    hide After;
    if a.Object? && b.Object? { EndIsUnique(s, |a.bytes|, |b.bytes|); }
  }
}
