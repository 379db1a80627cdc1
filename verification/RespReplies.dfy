/**
  Replies as a server sends them (Redis serialization protocol specification,
  RESP2, and the RESP3 null), nested to any depth, and that the client's reader
  gives back what each of them means and stops where it ends.
 */
module RespReplies {
  import opened Decimals
  import opened Resp

  datatype Reply =
    | Simple(text: string)
    | Refusal(text: string)
    | Count(n: int)
    | Bulk(bytes: string)
    | NoBulk
    | NoArray
    | NoValue
    | Items(replies: seq<Reply>)

  function Sent(r: Reply): string {
    match r
    case Simple(text) => "+" + (text + "\r\n")
    case Refusal(text) => "-" + (text + "\r\n")
    case Count(n) => ":" + (Show(n) + "\r\n")
    case Bulk(bytes) => "$" + (Itoa(|bytes|) + "\r\n" + bytes + "\r\n")
    case NoBulk => "$" + "-1\r\n"
    case NoArray => "*" + "-1\r\n"
    case NoValue => "_" + "\r\n"
    case Items(replies) => "*" + (Itoa(|replies|) + "\r\n" + SentAll(replies))
  }

  function SentAll(replies: seq<Reply>): string {
    if |replies| == 0 then "" else Sent(replies[0]) + SentAll(replies[1..])
  }

  predicate OneLine(text: string) {
    forall i | 0 <= i < |text| :: text[i] != '\n'
  }

  /** What the protocol and 64-bit lengths allow, with no error reply inside. */
  predicate Plain(r: Reply) {
    match r
    case Simple(text) => OneLine(text)
    case Refusal(_) => false
    case Count(n) => -INT64_MAX - 1 <= n <= INT64_MAX
    case Bulk(bytes) => |bytes| <= INT64_MAX
    case Items(replies) => |replies| <= INT64_MAX && forall i | 0 <= i < |replies| :: Plain(replies[i])
    case _ => true
  }

  function Meaning(r: Reply): Value
    requires Plain(r)
  {
    match r
    case Simple(text) => Text(text)
    case Count(n) => Number(n)
    case Bulk(bytes) => Text(bytes)
    case Items(replies) => Array(Meanings(replies))
    case _ => Null
  }

  function Meanings(replies: seq<Reply>): seq<Value>
    requires forall i | 0 <= i < |replies| :: Plain(replies[i])
  {
    if |replies| == 0 then [] else [Meaning(replies[0])] + Meanings(replies[1..])
  }

  // ----- Numbers -----

  lemma AtoiShow(n: int)
    requires -INT64_MAX - 1 <= n <= INT64_MAX
    ensures Atoi(Show(n)) == Some(n) && OneLine(Show(n))
  {
    hide Itoa, Decimal;
    var digits := Itoa(if n < 0 then -n else n);
    ItoaDigits(if n < 0 then -n else n);
    if n < 0 { assert ("-" + digits)[1..] == digits; }
  }

  lemma ShownNumber(n: int, more: string)
    requires -INT64_MAX - 1 <= n <= INT64_MAX
    ensures ReadNumber(Show(n) + "\r\n" + more) == Ok(n, more)
  {
    hide Show, Atoi, ReadLine;
    AtoiShow(n);
    LineRead(Show(n), more);
  }

  lemma MinusOne()
    ensures Show(-1) == "-1"
  {
    assert Itoa(1) == "1";
  }

  // ----- Replies -----

  /** A reply is its first byte and a body. */
  lemma FirstByte(c: char, body: string, more: string)
    ensures ([c] + body + more)[0] == c && ([c] + body + more)[1..] == body + more
  {
  }

  lemma SimpleReads(text: string, more: string)
    requires OneLine(text)
    ensures ReadValue(Sent(Simple(text)) + more) == Ok(Text(text), more)
    ensures ReadValue(Sent(Refusal(text)) + more) == Fail(Refused(text), more)
  {
    hide ReadLine;
    LineRead(text, more);
    FirstByte('+', text + "\r\n", more);
    FirstByte('-', text + "\r\n", more);
  }

  lemma CountReads(n: int, more: string)
    requires -INT64_MAX - 1 <= n <= INT64_MAX
    ensures ReadValue(Sent(Count(n)) + more) == Ok(Number(n), more)
  {
    hide ReadNumber, Show;
    ShownNumber(n, more);
    FirstByte(':', Show(n) + "\r\n", more);
  }

  lemma NothingReads(more: string)
    ensures ReadValue(Sent(NoBulk) + more) == Ok(Null, more)
    ensures ReadValue(Sent(NoArray) + more) == Ok(Null, more)
    ensures ReadValue(Sent(NoValue) + more) == Ok(Null, more)
  {
    hide ReadNumber, ReadLine, Show;
    MinusOne();
    ShownNumber(-1, more);
    LineRead("", more);
    assert "" + "\r\n" + more == "\r\n" + more;
    assert "-1" + "\r\n" + more == "-1\r\n" + more;
    FirstByte('$', "-1\r\n", more);
    FirstByte('*', "-1\r\n", more);
    FirstByte('_', "\r\n", more);
  }

  lemma BulkReplyReads(bytes: string, more: string)
    requires |bytes| <= INT64_MAX
    ensures ReadValue(Sent(Bulk(bytes)) + more) == Ok(Text(bytes), more)
  {
    hide ReadValue, Itoa;
    BulkReads(bytes, more);
    assert Sent(Bulk(bytes)) == EncodeBulk(bytes) by { SameBulk(bytes); }
  }

  lemma SameBulk(bytes: string)
    ensures "$" + (Itoa(|bytes|) + "\r\n" + bytes + "\r\n") == "$" + Itoa(|bytes|) + "\r\n" + bytes + "\r\n"
  {
    hide Itoa;
    InOrder("$", Itoa(|bytes|), "\r\n", bytes, "\r\n");
  }

  lemma InOrder(a: string, b: string, c: string, d: string, e: string)
    ensures a + (b + c + d + e) == a + b + c + d + e
  {
    assert a + (b + c) == a + b + c;
    assert a + (b + c + d) == a + (b + c) + d;
    assert a + (b + c + d + e) == a + (b + c + d) + e;
  }

  lemma ArrayBody(count: nat, items: string, more: string)
    requires count <= INT64_MAX
    ensures var s := "*" + (Itoa(count) + "\r\n" + items) + more;
      ReadValue(s) == match ReadItems(items + more, count)
                      case Ok(values, rest) => Ok(Array(values), rest)
                      case Fail(error, rest) => Fail(error, rest)
  {
    hide ReadItems, ReadNumber, Itoa;
    NumberLine(count, items + more);
    FirstByte('*', Itoa(count) + "\r\n" + items, more);
    assert Itoa(count) + "\r\n" + items + more == Itoa(count) + "\r\n" + (items + more);
  }

  /** Every reply without an error in it reads as what it means, whatever follows. */
  lemma {:induction false} ReplyReads(r: Reply, more: string)
    requires Plain(r)
    ensures ReadValue(Sent(r) + more) == Ok(Meaning(r), more)
    decreases r, 0
  {
    hide ReadValue, ReadItems, Itoa, Show;
    match r
    case Simple(text) => SimpleReads(text, more);
    case Count(n) => CountReads(n, more);
    case Bulk(bytes) => BulkReplyReads(bytes, more);
    case Items(replies) =>
      RepliesRead(replies, more);
      ArrayBody(|replies|, SentAll(replies), more);
    case _ => NothingReads(more);
  }

  lemma {:induction false} RepliesRead(replies: seq<Reply>, more: string)
    requires forall i | 0 <= i < |replies| :: Plain(replies[i])
    ensures ReadItems(SentAll(replies) + more, |replies|) == Ok(Meanings(replies), more)
    decreases replies, 1
  {
    hide ReadValue, Sent;
    if |replies| == 0 {
      assert SentAll(replies) + more == more;
    } else {
      var after := SentAll(replies[1..]) + more;
      assert SentAll(replies) + more == Sent(replies[0]) + after;
      ReplyReads(replies[0], after);
      RepliesRead(replies[1..], more);
    }
  }

  /** An error reply among the items of an array is the outcome of the whole; what follows it is left unread. */
  lemma {:induction false} RefusalEndsArray(before: seq<Reply>, text: string, more: string, n: nat)
    requires (forall i | 0 <= i < |before| :: Plain(before[i])) && OneLine(text) && n > |before|
    ensures ReadItems(SentAll(before) + (Sent(Refusal(text)) + more), n) == Fail(Refused(text), more)
  {
    hide ReadValue, Sent;
    var tail := Sent(Refusal(text)) + more;
    if |before| == 0 {
      assert SentAll(before) + tail == tail;
      SimpleReads(text, more);
    } else {
      var after := SentAll(before[1..]) + tail;
      assert SentAll(before) + tail == Sent(before[0]) + after;
      ReplyReads(before[0], after);
      RefusalEndsArray(before[1..], text, more, n - 1);
    }
  }
}
