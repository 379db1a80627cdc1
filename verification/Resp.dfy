/**
  The Redis serialization protocol as the collector speaks it: writing
  commands as arrays of bulk strings and reading replies from a byte stream
  (Redis serialization protocol specification, RESP2, and the RESP3 null).
 */
module Resp {
  import opened Decimals

  datatype Option<T> = None | Some(value: T)

  datatype Value = Text(text: string) | Number(n: int) | Null | Array(items: seq<Value>)

  datatype Error = EndOfStream | BadNumber | BadPrefix | Refused(message: string)

  /** What one read gives, and what it leaves in the stream. */
  datatype Read<T> = Ok(value: T, rest: string) | Fail(error: Error, rest: string)

  // ----- Numbers -----

  const INT64_MAX: int := 0x7fff_ffff_ffff_ffff

  /** strconv.Atoi, and ParseInt with base 10 and 64 bits: an optional sign, digits, within range. */
  function Atoi(s: string): Option<int> {
    var signed := s != "" && (s[0] == '-' || s[0] == '+');
    var digits := if signed then s[1..] else s;
    if !Digits(digits) then None
    else
      var n := if s[0] == '-' then -Decimal(digits) else Decimal(digits);
      if -INT64_MAX - 1 <= n <= INT64_MAX then Some(n) else None
  }

  lemma AtoiItoa(n: nat)
    requires n <= INT64_MAX
    ensures Atoi(Itoa(n)) == Some(n)
    ensures forall i | 0 <= i < |Itoa(n)| :: Digit(Itoa(n)[i])
  {
    ItoaDigits(n);
  }

  // ----- Lines and blocks -----

  /** The position just after the first newline. */
  function AfterNewline(s: string): (r: Option<nat>)
    ensures r.Some? ==> 0 < r.value <= |s| && s[r.value - 1] == '\n' && forall i | 0 <= i < r.value - 1 :: s[i] != '\n'
    ensures r.None? ==> forall i | 0 <= i < |s| :: s[i] != '\n'
  {
    if s == "" then None
    else if s[0] == '\n' then Some(1)
    else
      match AfterNewline(s[1..])
      case Some(n) => Some(n + 1)
      case None => assert forall i | 0 < i < |s| :: s[i] == s[1..][i - 1]; None
  }

  function TrimEnd(line: string): string {
    var bare := if line != "" && line[|line| - 1] == '\n' then line[..|line| - 1] else line;
    if bare != "" && bare[|bare| - 1] == '\r' then bare[..|bare| - 1] else bare
  }

  /** readLine: a missing newline leaves nothing to read. */
  function ReadLine(s: string): (r: Read<string>)
    ensures r.Ok? ==> |r.rest| < |s|
    ensures r.Fail? ==> r.error == EndOfStream
  {
    match AfterNewline(s)
    case Some(n) => Ok(TrimEnd(s[..n]), s[n..])
    case None => Fail(EndOfStream, "")
  }

  /** A line that holds a number. */
  function ReadNumber(s: string): (r: Read<int>)
    ensures r.Ok? ==> |r.rest| < |s|
  {
    match ReadLine(s)
    case Fail(e, rest) => Fail(e, rest)
    case Ok(line, rest) => if Atoi(line).Some? then Ok(Atoi(line).value, rest) else Fail(BadNumber, rest)
  }

  /** readBulkString: the two bytes after the data are taken as they are. */
  function ReadBulk(s: string): (r: Read<Value>)
    ensures r.Ok? ==> |r.rest| < |s|
  {
    match ReadNumber(s)
    case Fail(e, rest) => Fail(e, rest)
    case Ok(length, rest) =>
      if length < 0 then Ok(Null, rest)
      else if |rest| < length + 2 then Fail(EndOfStream, "")
      else Ok(Text(rest[..length]), rest[length + 2..])
  }

  // ----- Values -----

  /** readValue. */
  function ReadValue(s: string): (r: Read<Value>)
    ensures r.Ok? ==> |r.rest| < |s|
    decreases |s|, 0
  {
    if s == "" then Fail(EndOfStream, "")
    else
      var body := s[1..];
      match s[0]
      case '+' => (match ReadLine(body) case Ok(line, rest) => Ok(Text(line), rest) case Fail(e, rest) => Fail(e, rest))
      case '-' => (match ReadLine(body) case Ok(line, rest) => Fail(Refused(line), rest) case Fail(e, rest) => Fail(e, rest))
      case ':' => (match ReadNumber(body) case Ok(n, rest) => Ok(Number(n), rest) case Fail(e, rest) => Fail(e, rest))
      case '$' => ReadBulk(body)
      case '*' =>
        (match ReadNumber(body)
         case Fail(e, rest) => Fail(e, rest)
         case Ok(length, rest) =>
           if length < 0 then Ok(Null, rest)
           else
             match ReadItems(rest, length)
             case Ok(items, after) => Ok(Array(items), after)
             case Fail(e, after) => Fail(e, after))
      case '_' => (match ReadLine(body) case Ok(_, rest) => Ok(Null, rest) case Fail(e, rest) => Fail(e, rest))
      case _ => Fail(BadPrefix, body)
  }

  /** The loop of readArray: so many values one after the other. */
  function ReadItems(s: string, n: nat): (r: Read<seq<Value>>)
    ensures r.Ok? ==> |r.rest| <= |s| && |r.value| == n
    decreases |s|, 1
  {
    if n == 0 then Ok([], s)
    else
      match ReadValue(s)
      case Fail(e, rest) => Fail(e, rest)
      case Ok(v, rest) =>
        match ReadItems(rest, n - 1)
        case Ok(vs, after) => Ok([v] + vs, after)
        case Fail(e, after) => Fail(e, after)
  }

  // ----- Commands -----

  function EncodeBulk(arg: string): string {
    "$" + Itoa(|arg|) + "\r\n" + arg + "\r\n"
  }

  function EncodeBulks(args: seq<string>): string {
    if |args| == 0 then "" else EncodeBulks(args[..|args| - 1]) + EncodeBulk(args[|args| - 1])
  }

  function EncodeCommand(args: seq<string>): string {
    "*" + Itoa(|args|) + "\r\n" + EncodeBulks(args)
  }

  method WriteCommand(args: seq<string>) returns (bytes: string)
    ensures bytes == EncodeCommand(args)
  {
    bytes := "*";
    bytes := bytes + Itoa(|args|);
    bytes := bytes + "\r\n";
    ghost var header := bytes;
    for i := 0 to |args|
      invariant bytes == header + EncodeBulks(args[..i])
    {
      var arg := args[i];
      assert args[..i + 1][..i] == args[..i];
      ghost var before := bytes;
      bytes := bytes + "$";
      bytes := bytes + Itoa(|arg|);
      bytes := bytes + "\r\n";
      bytes := bytes + arg;
      bytes := bytes + "\r\n";
      assert bytes == before + EncodeBulk(arg);
    }
    assert args[..|args|] == args;
  }

  function Texts(args: seq<string>): seq<Value> {
    seq(|args|, i requires 0 <= i < |args| => Text(args[i]))
  }

  // ----- Reading a line that was written -----

  lemma {:induction false} NewlineFound(line: string, more: string)
    requires forall i | 0 <= i < |line| :: line[i] != '\n'
    ensures AfterNewline(line + "\n" + more) == Some(|line| + 1)
  {
    var s := line + "\n" + more;
    assert s[|line|] == '\n';
    assert forall i | 0 <= i < |line| :: s[i] == line[i];
  }

  lemma NewlineAt(s: string, k: nat)
    requires k < |s| && s[k] == '\n' && forall i | 0 <= i < k :: s[i] != '\n'
    ensures AfterNewline(s) == Some(k + 1)
  {
    var r := AfterNewline(s);
    assert r.Some? ==> s[r.value - 1] == '\n';
  }

  /** A line is read without its end. */
  lemma LineRead(text: string, more: string)
    requires forall i | 0 <= i < |text| :: text[i] != '\n'
    ensures ReadLine(text + "\r\n" + more) == Ok(text, more)
  {
    hide AfterNewline;
    var line := text + "\r";
    NewlineFound(line, more);
    var s := line + "\n" + more;
    assert s == text + "\r\n" + more;
    assert s[..|line| + 1] == line + "\n" && s[|line| + 1..] == more;
    assert (line + "\n")[..|line|] == line && line[..|line| - 1] == text;
  }

  lemma NumberLine(n: nat, more: string)
    requires n <= INT64_MAX
    ensures ReadNumber(Itoa(n) + "\r\n" + more) == Ok(n, more)
  {
    hide Itoa, Atoi, ReadLine;
    AtoiItoa(n);
    LineRead(Itoa(n), more);
  }

  lemma BulkBody(arg: string, more: string)
    requires |arg| <= INT64_MAX
    ensures ReadBulk(Itoa(|arg|) + "\r\n" + (arg + "\r\n" + more)) == Ok(Text(arg), more)
  {
    hide Itoa, ReadNumber;
    var tail := arg + "\r\n" + more;
    NumberLine(|arg|, tail);
    assert tail[..|arg|] == arg && tail[|arg| + 2..] == more;
  }

  lemma Regroup(a: string, b: string, c: string, d: string, e: string, f: string)
    ensures a + b + c + d + e + f == a + (b + c + (d + e + f))
  {
    assert a + b + c + d + e + f == (a + b + c) + (d + e + f);
    assert a + b + c == a + (b + c);
    assert (a + (b + c)) + (d + e + f) == a + ((b + c) + (d + e + f));
  }

  lemma BulkText(arg: string, more: string)
    ensures EncodeBulk(arg) + more == "$" + (Itoa(|arg|) + "\r\n" + (arg + "\r\n" + more))
  {
    hide Itoa;
    Regroup("$", Itoa(|arg|), "\r\n", arg, "\r\n", more);
  }

  lemma BulkReads(arg: string, more: string)
    requires |arg| <= INT64_MAX
    ensures ReadValue(EncodeBulk(arg) + more) == Ok(Text(arg), more)
  {
    hide Itoa, ReadBulk, EncodeBulk, ReadNumber, ReadLine;
    BulkText(arg, more);
    BulkBody(arg, more);
    var body := Itoa(|arg|) + "\r\n" + (arg + "\r\n" + more);
    assert ("$" + body)[0] == '$' && ("$" + body)[1..] == body;
  }

  /** What a length fits in; Go strings and slices are no longer than this. */
  ghost predicate Sized(args: seq<string>) {
    |args| <= INT64_MAX && forall i | 0 <= i < |args| :: |args[i]| <= INT64_MAX
  }

  // ----- Round trips -----

  lemma {:induction false} EncodeBulksFirst(args: seq<string>)
    requires |args| > 0
    ensures EncodeBulks(args) == EncodeBulk(args[0]) + EncodeBulks(args[1..])
  {
    hide EncodeBulk;
    var n := |args| - 1;
    if n > 0 {
      EncodeBulksFirst(args[..n]);
      assert args[..n][1..] == args[1..][..n - 1] && args[1..][n - 1] == args[n];
    } else {
      assert args[..0] == [] && args[1..] == [];
    }
  }

  lemma {:induction false} ItemsRead(args: seq<string>, more: string)
    requires Sized(args)
    ensures ReadItems(EncodeBulks(args) + more, |args|) == Ok(Texts(args), more)
  {
    hide EncodeBulk, ReadValue, Itoa;
    if |args| == 0 {
      assert EncodeBulks(args) + more == more;
    } else {
      EncodeBulksFirst(args);
      var after := EncodeBulks(args[1..]) + more;
      assert EncodeBulks(args) + more == EncodeBulk(args[0]) + after;
      BulkReads(args[0], after);
      ItemsRead(args[1..], more);
      assert Texts(args) == [Text(args[0])] + Texts(args[1..]);
    }
  }

  lemma CommandText(args: seq<string>, more: string)
    ensures EncodeCommand(args) + more == "*" + (Itoa(|args|) + "\r\n" + (EncodeBulks(args) + more))
  {
    hide Itoa, EncodeBulks;
  }

  /** Reading what was written gives the arguments back, whatever bytes they hold, and leaves what follows. */
  lemma CommandReads(args: seq<string>, more: string)
    requires Sized(args)
    ensures ReadValue(EncodeCommand(args) + more) == Ok(Array(Texts(args)), more)
  {
    hide Itoa, ReadBulk, EncodeCommand, EncodeBulks, ReadNumber, ReadLine, ReadItems, Texts;
    CommandText(args, more);
    var tail := EncodeBulks(args) + more;
    NumberLine(|args|, tail);
    ItemsRead(args, more);
    var body := Itoa(|args|) + "\r\n" + tail;
    assert ("*" + body)[0] == '*' && ("*" + body)[1..] == body;
  }

  function EncodeAll(commands: seq<seq<string>>): string {
    if |commands| == 0 then "" else EncodeCommand(commands[0]) + EncodeAll(commands[1..])
  }

  function Arrays(commands: seq<seq<string>>): seq<Value> {
    seq(|commands|, i requires 0 <= i < |commands| => Array(Texts(commands[i])))
  }

  /** A stream of commands reads back as the same commands. */
  lemma {:induction false} StreamReads(commands: seq<seq<string>>, more: string)
    requires forall i | 0 <= i < |commands| :: Sized(commands[i])
    ensures ReadItems(EncodeAll(commands) + more, |commands|) == Ok(Arrays(commands), more)
  {
    hide EncodeCommand, ReadValue, Texts, Sized;
    if |commands| == 0 {
      assert EncodeAll(commands) + more == more;
    } else {
      var after := EncodeAll(commands[1..]) + more;
      assert EncodeAll(commands) + more == EncodeCommand(commands[0]) + after;
      CommandReads(commands[0], after);
      StreamReads(commands[1..], more);
      assert Arrays(commands) == [Array(Texts(commands[0]))] + Arrays(commands[1..]);
    }
  }

  /** No command is the start of another: the encoding is prefix-free. */
  lemma EncodingIsPrefixFree(args: seq<string>, more: string, args': seq<string>, more': string)
    requires Sized(args) && Sized(args') && EncodeCommand(args) + more == EncodeCommand(args') + more'
    ensures args == args' && more == more'
  {
    hide EncodeCommand, ReadValue;
    CommandReads(args, more);
    CommandReads(args', more');
    assert |Texts(args)| == |args| && |Texts(args')| == |args'|;
    forall i | 0 <= i < |args| ensures args[i] == args'[i] {
      assert Texts(args)[i] == Text(args[i]) && Texts(args')[i] == Text(args'[i]);
    }
  }

  // ----- Arriving in pieces -----

  lemma {:induction false} NewlineStays(s: string, t: string)
    requires AfterNewline(s).Some?
    ensures AfterNewline(s + t) == AfterNewline(s)
  {
    if s[0] != '\n' {
      NewlineStays(s[1..], t);
      assert (s + t)[1..] == s[1..] + t;
    }
  }

  /** A verdict other than running out of bytes. */
  predicate Final<T>(r: Read<T>) {
    r.Ok? || r.error != EndOfStream
  }

  /** The same verdict, with more left to read. */
  function Extended<T>(r: Read<T>, t: string): Read<T> {
    match r
    case Ok(v, rest) => Ok(v, rest + t)
    case Fail(e, rest) => Fail(e, rest + t)
  }

  lemma LineStays(s: string, t: string)
    requires ReadLine(s).Ok?
    ensures ReadLine(s + t) == Extended(ReadLine(s), t)
  {
    NewlineStays(s, t);
    var n := AfterNewline(s).value;
    assert (s + t)[..n] == s[..n] && (s + t)[n..] == s[n..] + t;
  }

  lemma NumberStays(s: string, t: string)
    requires Final(ReadNumber(s))
    ensures ReadNumber(s + t) == Extended(ReadNumber(s), t)
  {
    hide ReadLine;
    LineStays(s, t);
  }

  lemma BulkStays(s: string, t: string)
    requires Final(ReadBulk(s))
    ensures ReadBulk(s + t) == Extended(ReadBulk(s), t)
  {
    hide ReadNumber;
    NumberStays(s, t);
    if ReadNumber(s).Ok? && ReadNumber(s).value >= 0 {
      var length, rest := ReadNumber(s).value, ReadNumber(s).rest;
      assert (rest + t)[..length] == rest[..length] && (rest + t)[length + 2..] == rest[length + 2..] + t;
    }
  }

  /** Once a value has been read, or refused, the bytes that arrive later change nothing about it. */
  lemma {:induction false} ValueStays(s: string, t: string)
    requires Final(ReadValue(s))
    ensures ReadValue(s + t) == Extended(ReadValue(s), t)
    decreases |s|, 0
  {
    hide ReadLine, ReadNumber, ReadBulk, ReadItems;
    var body := s[1..];
    assert (s + t)[0] == s[0] && (s + t)[1..] == body + t;
    if s[0] in {'+', '-', '_'} {
      LineStays(body, t);
    } else if s[0] == ':' {
      NumberStays(body, t);
    } else if s[0] == '$' {
      BulkStays(body, t);
    } else if s[0] == '*' {
      NumberStays(body, t);
      if ReadNumber(body).Ok? && ReadNumber(body).value >= 0 {
        ItemsStay(ReadNumber(body).rest, ReadNumber(body).value, t);
      }
    }
  }

  lemma {:induction false} ItemsStay(s: string, n: nat, t: string)
    requires Final(ReadItems(s, n))
    ensures ReadItems(s + t, n) == Extended(ReadItems(s, n), t)
    decreases |s|, 1
  {
    hide ReadValue;
    if n > 0 {
      ValueStays(s, t);
      if ReadValue(s).Ok? { ItemsStay(ReadValue(s).rest, n - 1, t); }
    }
  }

  // ----- The reader -----

  class Client {
    const stream: string
    var pos: nat

    constructor (stream: string)
      ensures this.stream == stream && pos == 0
    {
      this.stream := stream;
      pos := 0;
    }

    function Rest(): string
      reads this
    {
      if pos <= |stream| then stream[pos..] else ""
    }

    method ReadLineBytes() returns (line: Option<string>)
      requires pos <= |stream|
      modifies this
      ensures pos <= |stream| && Rest() == ReadLine(old(Rest())).rest
      ensures line == if ReadLine(old(Rest())).Ok? then Some(ReadLine(old(Rest())).value) else None
    {
      hide AfterNewline, TrimEnd;
      ghost var s := Rest();
      var end := pos;
      while end < |stream| && stream[end] != '\n'
        invariant pos <= end <= |stream| && forall i | 0 <= i < end - pos :: s[i] != '\n'
      {
        end := end + 1;
      }
      if end == |stream| {
        pos := |stream|;
        return None;
      }
      NewlineAt(s, end - pos);
      assert stream[pos..end + 1] == s[..end + 1 - pos] && stream[end + 1..] == s[end + 1 - pos..];
      line := Some(TrimEnd(stream[pos..end + 1]));
      pos := end + 1;
    }

    /** A line that must hold a number; an error otherwise. */
    method ReadLength() returns (n: Option<int>, error: Error)
      requires pos <= |stream|
      modifies this
      ensures pos <= |stream| && Rest() == ReadNumber(old(Rest())).rest
      ensures match ReadNumber(old(Rest())) case Ok(v, _) => n == Some(v) case Fail(e, _) => n == None && error == e
    {
      error := EndOfStream;
      n := None;
      var line := ReadLineBytes();
      if line.Some? {
        n := Atoi(line.value);
        error := BadNumber;
      }
    }

    method ReadBulkString() returns (value: Option<Value>, error: Error)
      requires pos <= |stream|
      modifies this
      ensures pos <= |stream| && Rest() == ReadBulk(old(Rest())).rest
      ensures match ReadBulk(old(Rest())) case Ok(v, _) => value == Some(v) case Fail(e, _) => value == None && error == e
    {
      hide ReadNumber;
      var length;
      length, error := ReadLength();
      if length.None? {
        return None, error;
      }
      if length.value < 0 {
        return Some(Null), error;
      }
      if |stream| - pos < length.value + 2 {
        pos := |stream|;
        return None, EndOfStream;
      }
      ghost var rest := Rest();
      assert stream[pos..pos + length.value] == rest[..length.value];
      assert stream[pos + length.value + 2..] == rest[length.value + 2..];
      value := Some(Text(stream[pos..pos + length.value]));
      pos := pos + length.value + 2;
    }

    method ReadArray() returns (value: Option<Value>, error: Error)
      requires pos <= |stream|
      modifies this
      ensures pos <= |stream| && Rest() == Elements(old(Rest())).rest
      ensures match Elements(old(Rest())) case Ok(v, _) => value == Some(v) case Fail(e, _) => value == None && error == e
      decreases |stream| - pos, 0
    {
      hide ReadNumber, ReadItems, ReadValue, Prepended;
      var length;
      ghost var start := Rest();
      length, error := ReadLength();
      if length.None? {
        return None, error;
      }
      if length.value < 0 {
        return Some(Null), error;
      }
      ghost var items := Rest();
      var result: seq<Value> := [];
      var i := 0;
      SplitsAtStart(items, length.value);
      while i < length.value
        invariant pos <= |stream| && 0 <= i <= length.value
        invariant |Rest()| <= |items| < |start|
        invariant ReadItems(items, length.value) == Prepended(result, ReadItems(Rest(), length.value - i))
      {
        SplitsNext(result, Rest(), length.value - i);
        var item;
        item, error := ReadNextValue();
        if item.None? {
          return None, error;
        }
        result := result + [item.value];
        i := i + 1;
      }
      SplitsAtEnd(result, Rest());
      value := Some(Array(result));
    }

    method ReadNextValue() returns (value: Option<Value>, error: Error)
      requires pos <= |stream|
      modifies this
      ensures pos <= |stream| && Rest() == ReadValue(old(Rest())).rest
      ensures match ReadValue(old(Rest())) case Ok(v, _) => value == Some(v) case Fail(e, _) => value == None && error == e
      decreases |stream| - pos, 1
    {
      hide ReadLine, ReadNumber, ReadBulk, ReadItems;
      error := EndOfStream;
      if pos == |stream| {
        return None, error;
      }
      var prefix := stream[pos];
      assert Rest()[0] == prefix && Rest()[1..] == stream[pos + 1..];
      pos := pos + 1;
      match prefix
      case '+' =>
        var line := ReadLineBytes();
        value := if line.Some? then Some(Text(line.value)) else None;
      case '-' =>
        var line := ReadLineBytes();
        value := None;
        if line.Some? { error := Refused(line.value); }
      case ':' =>
        var n;
        n, error := ReadLength();
        value := if n.Some? then Some(Number(n.value)) else None;
      case '$' => value, error := ReadBulkString();
      case '*' => value, error := ReadArray();
      case '_' =>
        var line := ReadLineBytes();
        value := if line.Some? then Some(Null) else None;
      case _ => value, error := None, BadPrefix;
    }
  }

  /** What follows the prefix of an array. */
  function Elements(s: string): Read<Value> {
    match ReadNumber(s)
    case Fail(e, rest) => Fail(e, rest)
    case Ok(length, rest) =>
      if length < 0 then Ok(Null, rest)
      else
        match ReadItems(rest, length)
        case Ok(items, after) => Ok(Array(items), after)
        case Fail(e, after) => Fail(e, after)
  }

  /** Items read before the rest of the loop. */
  function Prepended(done: seq<Value>, r: Read<seq<Value>>): Read<seq<Value>> {
    match r case Ok(vs, rest) => Ok(done + vs, rest) case Fail(e, rest) => Fail(e, rest)
  }

  lemma SplitsAtStart(s: string, n: nat)
    ensures ReadItems(s, n) == Prepended([], ReadItems(s, n))
  {
    var r := ReadItems(s, n);
    if r.Ok? { assert [] + r.value == r.value; }
  }

  lemma SplitsNext(done: seq<Value>, s: string, n: nat)
    requires n > 0
    ensures Prepended(done, ReadItems(s, n)) == match ReadValue(s)
      case Ok(v, rest) => Prepended(done + [v], ReadItems(rest, n - 1))
      case Fail(e, rest) => Fail(e, rest)
  {
    hide ReadValue;
    if ReadValue(s).Ok? {
      var v, r := ReadValue(s).value, ReadItems(ReadValue(s).rest, n - 1);
      if r.Ok? { assert done + ([v] + r.value) == done + [v] + r.value; }
    }
  }

  lemma SplitsAtEnd(done: seq<Value>, s: string)
    ensures Prepended(done, ReadItems(s, 0)) == Ok(done, s)
  {
    assert done + [] == done;
  }
}
