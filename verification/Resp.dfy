/**
 The grammar of replies in the Redis unified protocol, as a recursive-descent parser, with what the
 incremental reader of harvester/producer-cli/read.c accepts: numbers end at the first carriage
 return, a malformed number reads as -1, the two bytes after a bulk string are not looked at, and an
 array may not sit below eight others.
 */
module Resp {
  import opened Decimal
  import opened Optional

  /** A reply object.  A negative element count other than -1 yields an array without elements that keeps the count. */
  datatype Reply =
    | Status(text: string)
    | Error(text: string)
    | Integer(n: int)
    | Bulk(text: string)
    | Nil
    | Array(count: int, items: seq<Reply>)

  datatype Kind = ErrorKind | StatusKind | IntegerKind | StringKind | ArrayKind

  datatype ProtocolError = BadTypeByte(c: char) | TooDeep

  datatype Result<T> = Done(value: T, rest: string) | Incomplete | Failure(error: ProtocolError)

  /** The deepest position the task stack can hold (nine entries); arrays are refused there. */
  const MAX_DEPTH: nat := 8

  function KindOf(c: char): Option<Kind> {
    match c
    case '-' => Some(ErrorKind)
    case '+' => Some(StatusKind)
    case ':' => Some(IntegerKind)
    case '$' => Some(StringKind)
    case '*' => Some(ArrayKind)
    case _ => None
  }

  /** Position of the first carriage return and line feed in a row; |s| when there is none. */
  function CrlfAt(s: string): (k: nat)
    ensures k <= |s|
    ensures k < |s| ==> k + 1 < |s| && s[k] == '\r' && s[k + 1] == '\n'
    ensures forall i :: 0 <= i < k && i + 1 < |s| ==> !(s[i] == '\r' && s[i + 1] == '\n')
  {
    if |s| < 2 then |s|
    else if s[0] == '\r' && s[1] == '\n' then 0
    else 1 + CrlfAt(s[1..])
  }

  /** Position of the first carriage return; |s| when there is none. */
  function CrAt(s: string): (k: nat)
    ensures k <= |s| && (k < |s| ==> s[k] == '\r')
    ensures forall i :: 0 <= i < k ==> s[i] != '\r'
  {
    if s == "" || s[0] == '\r' then 0 else 1 + CrAt(s[1..])
  }

  /** What a text spells: an optional sign and digits; -1 for anything else. */
  function Number(text: string): int {
    if text != "" && text[0] == '-' then
      if AllDigits(text[1..]) then -Value(text[1..]) else -1
    else if text != "" && text[0] == '+' then
      if AllDigits(text[1..]) then Value(text[1..]) else -1
    else if AllDigits(text) then Value(text) else -1
  }

  /** The number a line spells. */
  function LineNumber(line: string): int { Number(line[..CrAt(line)]) }

  /** One reply whose type byte comes first, at this depth of nesting. */
  function ParseReply(s: string, depth: nat): (r: Result<Reply>)
    ensures r.Done? ==> |r.rest| < |s|
    ensures s == "" ==> r == Incomplete
    ensures s != "" && s[0] !in ['-', '+', ':', '$', '*'] ==> r == Failure(BadTypeByte(s[0]))
    decreases |s|, 1
  {
    if s == "" then Incomplete
    else match KindOf(s[0])
      case None => Failure(BadTypeByte(s[0]))
      case Some(kind) => ParseBody(kind, s[1..], depth)
  }

  /** A reply whose type is known already. */
  function ParseBody(kind: Kind, s: string, depth: nat): (r: Result<Reply>)
    ensures r.Done? ==> |r.rest| < |s|
    decreases |s|, 0
  {
    var k := CrlfAt(s);
    if kind == ArrayKind && depth == MAX_DEPTH then Failure(TooDeep)
    else if k == |s| then Incomplete
    else AfterLine(kind, s[..k], s[k + 2..], depth)
  }

  /** A reply whose type and first line are known. */
  function AfterLine(kind: Kind, line: string, rest: string, depth: nat): (r: Result<Reply>)
    ensures r.Done? ==> |r.rest| <= |rest|
    decreases |rest|, 3
  {
    match kind
    case ErrorKind => Done(Error(line), rest)
    case StatusKind => Done(Status(line), rest)
    case IntegerKind => Done(Integer(LineNumber(line)), rest)
    case StringKind =>
      var len := LineNumber(line);
      if len < 0 then Done(Nil, rest)
      else if |rest| < len + 2 then Incomplete
      else Done(Bulk(rest[..len]), rest[len + 2..])
    case ArrayKind =>
      var count := LineNumber(line);
      if count == -1 then Done(Nil, rest)
      else if count <= 0 then Done(Array(count, []), rest)
      else Wrap(count, [], ParseItems(count, rest, depth + 1))
  }

  /** The next n elements of an array. */
  function ParseItems(n: nat, s: string, depth: nat): (r: Result<seq<Reply>>)
    ensures r.Done? ==> |r.rest| <= |s|
    decreases |s|, 2
  {
    if n == 0 then Done([], s)
    else match ParseReply(s, depth)
      case Done(v, rest) => Prefix(v, ParseItems(n - 1, rest, depth))
      case Incomplete => Incomplete
      case Failure(e) => Failure(e)
  }

  function Prefix(v: Reply, r: Result<seq<Reply>>): Result<seq<Reply>> {
    match r
    case Done(vs, rest) => Done([v] + vs, rest)
    case _ => r
  }

  /** The array made of the elements at hand and the ones just parsed. */
  function Wrap(count: int, items: seq<Reply>, more: Result<seq<Reply>>): Result<Reply> {
    match more
    case Done(vs, rest) => Done(Array(count, items + vs), rest)
    case Incomplete => Incomplete
    case Failure(e) => Failure(e)
  }

  // ---- bytes that arrive later ----

  /** The same outcome with t still unread behind it. */
  function Later<T>(r: Result<T>, t: string): Result<T> {
    match r
    case Done(v, rest) => Done(v, rest + t)
    case _ => r
  }

  lemma {:induction false} CrlfAtAppend(s: string, t: string)
    requires CrlfAt(s) < |s|
    ensures CrlfAt(s + t) == CrlfAt(s)
  {
    if !(s[0] == '\r' && s[1] == '\n') {
      assert (s + t)[1..] == s[1..] + t;
      CrlfAtAppend(s[1..], t);
    }
  }

  /** Once a reply is decided, later bytes do not change it. */
  lemma {:induction false} ParseReplyAppend(s: string, t: string, depth: nat)
    requires !ParseReply(s, depth).Incomplete?
    ensures ParseReply(s + t, depth) == Later(ParseReply(s, depth), t)
    decreases |s|, 1
  {
    assert (s + t)[0] == s[0] && (s + t)[1..] == s[1..] + t;
    if KindOf(s[0]).Some? { ParseBodyAppend(KindOf(s[0]).value, s[1..], t, depth); }
  }

  lemma {:induction false} ParseBodyAppend(kind: Kind, s: string, t: string, depth: nat)
    requires !ParseBody(kind, s, depth).Incomplete?
    ensures ParseBody(kind, s + t, depth) == Later(ParseBody(kind, s, depth), t)
    decreases |s|, 0
  {
    hide CrlfAt, AfterLine;
    if kind == ArrayKind && depth == MAX_DEPTH { return; }
    var k := CrlfAt(s);
    CrlfAtAppend(s, t);
    assert (s + t)[..k] == s[..k] && (s + t)[k + 2..] == s[k + 2..] + t;
    AfterLineAppend(kind, s[..k], s[k + 2..], t, depth);
  }

  lemma {:induction false} AfterLineAppend(kind: Kind, line: string, rest: string, t: string, depth: nat)
    requires !AfterLine(kind, line, rest, depth).Incomplete?
    ensures AfterLine(kind, line, rest + t, depth) == Later(AfterLine(kind, line, rest, depth), t)
    decreases |rest|, 3
  {
    hide LineNumber;
    var n := LineNumber(line);
    if kind == StringKind && n >= 0 {
      assert (rest + t)[..n] == rest[..n] && (rest + t)[n + 2..] == rest[n + 2..] + t;
    } else if kind == ArrayKind && n > 0 {
      ParseItemsAppend(n, rest, t, depth + 1);
    }
  }

  lemma {:induction false} ParseItemsAppend(n: nat, s: string, t: string, depth: nat)
    requires !ParseItems(n, s, depth).Incomplete?
    ensures ParseItems(n, s + t, depth) == Later(ParseItems(n, s, depth), t)
    decreases |s|, 2
  {
    if n > 0 {
      ParseReplyAppend(s, t, depth);
      var r := ParseReply(s, depth);
      if r.Done? { ParseItemsAppend(n - 1, r.rest, t, depth); }
    }
  }

  // ---- round trip ----

  /** A reply a server can print: one-line texts hold no line end, and counts are honest. */
  predicate Printable(v: Reply) {
    match v
    case Status(text) => CrlfAt(text) == |text|
    case Error(text) => CrlfAt(text) == |text|
    case Array(count, items) => count == |items| && forall i :: 0 <= i < |items| ==> Printable(items[i])
    case _ => true
  }

  function Encode(v: Reply): string {
    match v
    case Status(text) => "+" + text + "\r\n"
    case Error(text) => "-" + text + "\r\n"
    case Integer(n) => ":" + Text(n) + "\r\n"
    case Bulk(text) => "$" + Text(|text|) + "\r\n" + (text + "\r\n")
    case Nil => "$" + Text(-1) + "\r\n"
    case Array(_, items) => "*" + Text(|items|) + "\r\n" + EncodeAll(items)
  }

  function EncodeAll(vs: seq<Reply>): string {
    if vs == [] then "" else Encode(vs[0]) + EncodeAll(vs[1..])
  }

  /** How many arrays enclose one another; an empty array is one. */
  function Nesting(v: Reply): nat {
    if v.Array? then 1 + NestingAll(v.items) else 0
  }

  function NestingAll(vs: seq<Reply>): nat {
    if vs == [] then 0
    else if Nesting(vs[0]) >= NestingAll(vs[1..]) then Nesting(vs[0]) else NestingAll(vs[1..])
  }

  lemma {:induction false} CrlfAtEnd(text: string, rest: string)
    requires CrlfAt(text) == |text|
    ensures CrlfAt(text + "\r\n" + rest) == |text|
  {
    var s := text + "\r\n" + rest;
    if text != "" {
      assert s[1..] == text[1..] + "\r\n" + rest;
      if |text| >= 2 { assert CrlfAt(text[1..]) == |text[1..]|; }
      CrlfAtEnd(text[1..], rest);
    }
  }

  lemma {:induction false} NoCr(text: string)
    requires forall i :: 0 <= i < |text| ==> text[i] != '\r'
    ensures CrlfAt(text) == |text| && CrAt(text) == |text|
  {
    if |text| >= 1 { NoCr(text[1..]); }
  }

  /** A printed number reads back. */
  lemma {:induction false} NumberOfText(n: int)
    ensures CrlfAt(Text(n)) == |Text(n)| && LineNumber(Text(n)) == n
  {
    hide Digits, Value;
    var d := Digits(if n < 0 then -n else n);
    DigitsSpell(if n < 0 then -n else n);
    NoCr(Text(n));
    assert Text(n)[..|Text(n)|] == Text(n);
    assert n < 0 ==> Text(n)[1..] == d;
  }

  /** A printed line is split off the input. */
  lemma TypedLine(c: char, kind: Kind, text: string, rest: string, depth: nat)
    requires KindOf(c) == Some(kind) && CrlfAt(text) == |text| && !(kind == ArrayKind && depth == MAX_DEPTH)
    ensures ParseReply([c] + (text + "\r\n" + rest), depth) == AfterLine(kind, text, rest, depth)
  {
    hide CrlfAt, AfterLine;
    var s := text + "\r\n" + rest;
    assert ([c] + s)[0] == c && ([c] + s)[1..] == s;
    CrlfAtEnd(text, rest);
    assert s[..|text|] == text && s[|text| + 2..] == rest;
  }

  lemma AfterBulkLine(text: string, rest: string, depth: nat)
    ensures AfterLine(StringKind, Text(|text|), text + "\r\n" + rest, depth) == Done(Bulk(text), rest)
  {
    hide Text, LineNumber;
    NumberOfText(|text|);
    var s := text + "\r\n" + rest;
    assert s[..|text|] == text && s[|text| + 2..] == rest;
  }

  /** The encoding is a type byte, a line, and what belongs to it. */
  lemma EncodeShape(v: Reply, rest: string)
    ensures match v
            case Status(text) => Encode(v) + rest == ['+'] + (text + "\r\n" + rest)
            case Error(text) => Encode(v) + rest == ['-'] + (text + "\r\n" + rest)
            case Integer(n) => Encode(v) + rest == [':'] + (Text(n) + "\r\n" + rest)
            case Bulk(text) => Encode(v) + rest == ['$'] + (Text(|text|) + "\r\n" + (text + "\r\n" + rest))
            case Nil => Encode(v) + rest == ['$'] + (Text(-1) + "\r\n" + rest)
            case Array(_, items) => Encode(v) + rest == ['*'] + (Text(|items|) + "\r\n" + (EncodeAll(items) + rest))
  {
    hide Text, EncodeAll;
    match v
    case Status(text) => Regroup('+', text, rest);
    case Error(text) => Regroup('-', text, rest);
    case Integer(n) => Regroup(':', Text(n), rest);
    case Nil => Regroup('$', Text(-1), rest);
    case Bulk(text) =>
      RegroupWith('$', Text(|text|), text + "\r\n", rest);
      assert (text + "\r\n") + rest == text + "\r\n" + rest;
    case Array(_, items) => RegroupWith('*', Text(|items|), EncodeAll(items), rest);
  }

  lemma Regroup(c: char, a: string, rest: string)
    ensures [c] + a + "\r\n" + rest == [c] + (a + "\r\n" + rest)
  {
  }

  lemma RegroupWith(c: char, a: string, b: string, rest: string)
    ensures ([c] + a + "\r\n" + b) + rest == [c] + (a + "\r\n" + (b + rest))
  {
    Regroup(c, a, b + rest);
    assert ([c] + a + "\r\n" + b) + rest == [c] + a + "\r\n" + (b + rest);
  }

  /**
   A printed reply is rebuilt exactly, consuming exactly its encoding, if its arrays fit under the
   depth limit, which is eight arrays in each other; one level deeper is a protocol error.
   */
  lemma {:induction false} RoundTrip(v: Reply, rest: string, depth: nat)
    requires Printable(v) && depth <= 8
    ensures ParseReply(Encode(v) + rest, depth)
         == if Nesting(v) + depth <= 8 then Done(v, rest) else Failure(TooDeep)
    decreases v, 0
  {
    hide Encode, EncodeAll, Text, LineNumber, ParseReply, ParseBody, CrlfAt, NestingAll, ParseItems;
    EncodeShape(v, rest);
    match v
    case Status(text) => TypedLine('+', StatusKind, text, rest, depth);
    case Error(text) => TypedLine('-', ErrorKind, text, rest, depth);
    case Integer(n) =>
      NumberOfText(n);
      TypedLine(':', IntegerKind, Text(n), rest, depth);
    case Nil =>
      NumberOfText(-1);
      TypedLine('$', StringKind, Text(-1), rest, depth);
    case Bulk(text) =>
      NumberOfText(|text|);
      TypedLine('$', StringKind, Text(|text|), text + "\r\n" + rest, depth);
      AfterBulkLine(text, rest, depth);
    case Array(count, items) =>
      NumberOfText(|items|);
      if depth == MAX_DEPTH {
        RefusedArray(Text(|items|) + "\r\n" + (EncodeAll(items) + rest));
      } else {
        TypedLine('*', ArrayKind, Text(|items|), EncodeAll(items) + rest, depth);
        RoundTripAll(v, items, rest, depth + 1);
        AfterArrayLine(items, EncodeAll(items) + rest, rest, depth);
      }
  }

  lemma AfterArrayLine(items: seq<Reply>, s: string, rest: string, depth: nat)
    requires depth < MAX_DEPTH
    requires ParseItems(|items|, s, depth + 1)
          == if NestingAll(items) + depth + 1 <= MAX_DEPTH then Done(items, rest) else Failure(TooDeep)
    ensures AfterLine(ArrayKind, Text(|items|), s, depth)
         == if 1 + NestingAll(items) + depth <= MAX_DEPTH then Done(Array(|items|, items), rest) else Failure(TooDeep)
  {
    hide Text, LineNumber;
    NumberOfText(|items|);
    if items != [] { assert [] + items == items; }
  }

  lemma RefusedArray(s: string)
    ensures ParseReply(['*'] + s, MAX_DEPTH) == Failure(TooDeep)
  {
  }

  lemma {:induction false} RoundTripAll(whole: Reply, vs: seq<Reply>, rest: string, depth: nat)
    requires whole.Array? && (forall i :: 0 <= i < |vs| ==> vs[i] in whole.items && Printable(vs[i])) && depth <= 8
    ensures ParseItems(|vs|, EncodeAll(vs) + rest, depth)
         == if NestingAll(vs) + depth <= 8 then Done(vs, rest) else Failure(TooDeep)
    decreases whole, 0, |vs|
  {
    hide Encode, ParseReply, Nesting, Printable;
    if vs != [] {
      assert EncodeAll(vs) + rest == Encode(vs[0]) + (EncodeAll(vs[1..]) + rest);
      RoundTrip(vs[0], EncodeAll(vs[1..]) + rest, depth);
      RoundTripAll(whole, vs[1..], rest, depth);
      assert vs == [vs[0]] + vs[1..];
    }
  }

  /** What a count below one reads as: -1 is nil, and so is any negative length of a bulk string. */
  lemma {:induction false} NegativeCounts(n: int, rest: string, depth: nat)
    requires n <= 0 && depth < 8
    ensures ParseReply(['*'] + (Text(n) + "\r\n" + rest), depth)
         == Done(if n == -1 then Nil else Array(n, []), rest)
    ensures n < 0 ==> ParseReply(['$'] + (Text(n) + "\r\n" + rest), depth) == Done(Nil, rest)
  {
    hide Text, LineNumber, ParseReply, CrlfAt;
    NumberOfText(n);
    TypedLine('*', ArrayKind, Text(n), rest, depth);
    TypedLine('$', StringKind, Text(n), rest, depth);
  }

  /** A line with a byte other than a digit, apart from a sign in front, counts as -1. */
  lemma {:induction false} MalformedCounts(text: string, i: nat, rest: string, depth: nat)
    requires (forall j :: 0 <= j < |text| ==> text[j] != '\r') && i < |text| && depth < 8
    requires !IsDigit(text[i]) && (i > 0 || (text[0] != '-' && text[0] != '+'))
    ensures ParseReply([':'] + (text + "\r\n" + rest), depth) == Done(Integer(-1), rest)
    ensures ParseReply(['$'] + (text + "\r\n" + rest), depth) == Done(Nil, rest)
    ensures ParseReply(['*'] + (text + "\r\n" + rest), depth) == Done(Nil, rest)
  {
    hide ParseReply, CrlfAt, CrAt;
    NoCr(text);
    assert text[..|text|] == text;
    if text[0] == '-' || text[0] == '+' { assert text[1..][i - 1] == text[i]; }
    TypedLine(':', IntegerKind, text, rest, depth);
    TypedLine('$', StringKind, text, rest, depth);
    TypedLine('*', ArrayKind, text, rest, depth);
  }

  lemma {:induction false} NilArray(rest: string)
    ensures ParseReply("*-1\r\n" + rest, 0) == ParseReply("$-1\r\n" + rest, 0) == Done(Nil, rest)
  {
    hide ParseReply, Text, CrlfAt;
    MinusOne();
    NegativeCounts(-1, rest, 0);
    assert ['*'] + ("-1" + "\r\n" + rest) == "*-1\r\n" + rest;
    assert ['$'] + ("-1" + "\r\n" + rest) == "$-1\r\n" + rest;
  }

  lemma MinusOne()
    ensures Text(-1) == "-1"
  {
    assert Digits(1) == "1";
  }

  // ---- a stream of replies ----

  /** How a stream ends: with an unfinished reply, or in an error. */
  datatype Ending = Pending(rest: string) | Broken(error: ProtocolError)

  datatype Stream = Stream(replies: seq<Reply>, ending: Ending)

  /** All replies of a stream. */
  function ParseAll(s: string): Stream
    decreases |s|
  {
    match ParseReply(s, 0)
    case Incomplete => Stream([], Pending(s))
    case Failure(e) => Stream([], Broken(e))
    case Done(v, rest) => var r := ParseAll(rest); Stream([v] + r.replies, r.ending)
  }

  /** A stream handled up to some point, and then what is left with the bytes that follow. */
  function Resumed(r: Stream, t: string): Stream {
    match r.ending
    case Broken(_) => r
    case Pending(rest) => var more := ParseAll(rest + t); Stream(r.replies + more.replies, more.ending)
  }

  lemma ConsResumed(v: Reply, r: Stream, t: string)
    ensures Resumed(Stream([v] + r.replies, r.ending), t)
         == Stream([v] + Resumed(r, t).replies, Resumed(r, t).ending)
  {
    if r.ending.Pending? {
      var more := ParseAll(r.ending.rest + t);
      assert [v] + r.replies + more.replies == [v] + (r.replies + more.replies);
    }
  }

  /** Cutting a stream in two changes neither the replies nor the error. */
  lemma {:induction false} ParseAllSplits(s: string, t: string)
    ensures ParseAll(s + t) == Resumed(ParseAll(s), t)
    decreases |s|
  {
    hide ParseReply;
    var r := ParseReply(s, 0);
    match r
    case Incomplete =>
    case Failure(_) => ParseReplyAppend(s, t, 0);
    case Done(v, rest) =>
      ParseReplyAppend(s, t, 0);
      ParseAllSplits(rest, t);
      ConsResumed(v, ParseAll(rest), t);
  }

  /** A stream of printed replies is read back as those replies. */
  lemma {:induction false} StreamRoundTrip(vs: seq<Reply>)
    requires forall i :: 0 <= i < |vs| ==> Printable(vs[i]) && Nesting(vs[i]) <= 8
    ensures ParseAll(EncodeAll(vs)) == Stream(vs, Pending(""))
  {
    if vs != [] {
      RoundTrip(vs[0], EncodeAll(vs[1..]), 0);
      StreamRoundTrip(vs[1..]);
    }
  }

  function Join(chunks: seq<string>): string {
    if chunks == [] then "" else Join(chunks[..|chunks| - 1]) + chunks[|chunks| - 1]
  }

  /** Every way of cutting a stream into feeds, drained after each, yields what the whole stream yields. */
  function Chunked(chunks: seq<string>): Stream {
    if chunks == [] then Stream([], Pending(""))
    else Resumed(Chunked(chunks[..|chunks| - 1]), chunks[|chunks| - 1])
  }

  lemma {:induction false} ChunkingIsInvisible(chunks: seq<string>)
    ensures Chunked(chunks) == ParseAll(Join(chunks))
  {
    if chunks != [] {
      ChunkingIsInvisible(chunks[..|chunks| - 1]);
      ParseAllSplits(Join(chunks[..|chunks| - 1]), chunks[|chunks| - 1]);
    }
  }
}
