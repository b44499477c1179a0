/**
 The incremental reply reader of harvester/producer-cli/read.c: a byte buffer with a cursor, a stack
 of nine tasks, and a current task that may stop at any byte and go on when more have arrived.
 Reply objects are values: an array takes its elements when they are complete.
 */
module ReplyReader {
  import opened Decimal
  import opened Optional
  import opened Resp

  /** A redisReadTask; items holds the finished elements of the array it is reading. */
  datatype Task = Task(kind: Option<Kind>, elements: int, idx: int, items: seq<Reply>)

  // ---- what a half-read reply means ----

  /** Arrays being read, outermost first: each misses at least one element. */
  ghost predicate Open(open: seq<Task>) {
    forall i :: 0 <= i < |open| ==> open[i].kind == Some(ArrayKind) && |open[i].items| < open[i].elements
  }

  /** The recursive-descent parser's answer, given that for the innermost unfinished element. */
  ghost function Finish(open: seq<Task>, r: Result<Reply>): Result<Reply>
    requires Open(open)
  {
    if open == [] || !r.Done? then r
    else
      var f := open[|open| - 1];
      Finish(open[..|open| - 1],
             Wrap(f.elements, f.items + [r.value], ParseItems(f.elements - |f.items| - 1, r.rest, |open|)))
  }

  ghost function ParseTask(kind: Option<Kind>, s: string, depth: nat): Result<Reply> {
    match kind
    case None => ParseReply(s, depth)
    case Some(k) => ParseBody(k, s, depth)
  }

  /** Whatever arrives later, going on from the tasks at hand amounts to parsing all pending bytes afresh. */
  ghost predicate Tracks(pending: string, open: seq<Task>, kind: Option<Kind>, unread: string)
    requires Open(open)
  {
    forall t: string :: ParseReply(pending + t, 0) == Finish(open, ParseTask(kind, unread + t, |open|))
  }

  /** Where the reader goes when the innermost task has produced a value. */
  datatype Next = Finished(v: Reply) | Going(open: seq<Task>)

  function Close(open: seq<Task>, v: Reply): Next {
    if open == [] then Finished(v)
    else
      var f := open[|open| - 1];
      var items := f.items + [v];
      if |items| >= f.elements then Close(open[..|open| - 1], Array(f.elements, items))
      else Going(open[..|open| - 1] + [f.(items := items)])
  }

  ghost function NextResult(next: Next, rest: string): Result<Reply>
    requires next.Going? ==> Open(next.open)
  {
    if next.Finished? then Done(next.v, rest) else Finish(next.open, ParseReply(rest, |next.open|))
  }

  ghost predicate NextTracks(pending: string, next: Next, rest: string) {
    if next.Finished? then ParseReply(pending, 0) == Done(next.v, rest)
    else Open(next.open) && Tracks(pending, next.open, None, rest)
  }

  lemma {:induction false} CloseOpen(open: seq<Task>, v: Reply)
    requires Open(open)
    ensures Close(open, v).Going? ==> var o := Close(open, v).open; 0 < |o| <= |open| && Open(o)
  {
    if open != [] {
      var f := open[|open| - 1];
      CloseOpen(open[..|open| - 1], Array(f.elements, f.items + [v]));
    }
  }

  lemma {:induction false} CloseMeans(open: seq<Task>, v: Reply, rest: string)
    requires Open(open)
    ensures Close(open, v).Going? ==> Open(Close(open, v).open)
    ensures Finish(open, Done(v, rest))
         == NextResult(Close(open, v), rest)
  {
    hide ParseReply;
    CloseOpen(open, v);
    if open != [] {
      var f := open[|open| - 1];
      var front, items := open[..|open| - 1], f.items + [v];
      if |items| >= f.elements {
        CloseMeans(front, Array(f.elements, items), rest);
        assert items + [] == items;
      } else {
        var o := front + [f.(items := items)];
        assert Close(open, v) == Going(o);
        OneMore(front, f.(items := items), rest);
      }
    }
  }

  /** Parsing the next element and then the remaining ones is parsing all that are missing. */
  lemma OneMore(front: seq<Task>, f: Task, rest: string)
    requires Open(front + [f]) && Open(front) && |f.items| < f.elements
    ensures Finish(front + [f], ParseReply(rest, |front| + 1))
         == Finish(front, Wrap(f.elements, f.items, ParseItems(f.elements - |f.items|, rest, |front| + 1)))
  {
    hide ParseReply;
    var o := front + [f];
    assert o[..|o| - 1] == front && o[|o| - 1] == f;
    var r := ParseReply(rest, |front| + 1);
    if r.Done? {
      var more := ParseItems(f.elements - |f.items| - 1, r.rest, |o|);
      if more.Done? { assert f.items + [r.value] + more.value == f.items + ([r.value] + more.value); }
    }
  }

  // ---- how the meaning moves along with the cursor ----

  lemma TracksNow(pending: string, open: seq<Task>, kind: Option<Kind>, unread: string)
    requires Open(open) && Tracks(pending, open, kind, unread)
    ensures ParseReply(pending, 0) == Finish(open, ParseTask(kind, unread, |open|))
  {
    assert pending + "" == pending && unread + "" == unread;
  }

  lemma TracksStart(pending: string)
    ensures Tracks(pending, [], None, pending)
  {
  }

  lemma TracksFeed(pending: string, open: seq<Task>, kind: Option<Kind>, unread: string, bytes: string)
    requires Open(open) && Tracks(pending, open, kind, unread)
    ensures Tracks(pending + bytes, open, kind, unread + bytes)
  {
    hide ParseReply, Finish, ParseTask;
    forall t: string
      ensures ParseReply(pending + bytes + t, 0) == Finish(open, ParseTask(kind, unread + bytes + t, |open|))
    {
      assert pending + bytes + t == pending + (bytes + t) && unread + bytes + t == unread + (bytes + t);
    }
  }

  lemma {:induction false} TracksType(pending: string, open: seq<Task>, s: string)
    requires Open(open) && Tracks(pending, open, None, s) && s != ""
    ensures KindOf(s[0]).Some? ==> Tracks(pending, open, KindOf(s[0]), s[1..])
    ensures KindOf(s[0]).None? ==> ParseReply(pending, 0) == Failure(BadTypeByte(s[0]))
  {
    hide Finish, ParseBody, ParseReply;
    TypeStep(s, "", |open|);
    if KindOf(s[0]).None? {
      TracksStuck(pending, open, None, s);
    } else {
      forall t: string
        ensures ParseReply(pending + t, 0) == Finish(open, ParseTask(KindOf(s[0]), s[1..] + t, |open|))
      {
        TypeStep(s, t, |open|);
        assert ParseReply(pending + t, 0) == Finish(open, ParseTask(None, s + t, |open|));
      }
    }
  }

  lemma TypeStep(s: string, t: string, depth: nat)
    requires s != ""
    ensures KindOf(s[0]).Some? ==> ParseTask(None, s + t, depth) == ParseTask(KindOf(s[0]), s[1..] + t, depth)
    ensures KindOf(s[0]).None? ==> ParseTask(None, s, depth) == Failure(BadTypeByte(s[0]))
  {
    hide ParseBody;
    assert (s + t)[0] == s[0] && (s + t)[1..] == s[1..] + t;
  }

  lemma FinishStops(open: seq<Task>, r: Result<Reply>)
    requires Open(open) && !r.Done?
    ensures Finish(open, r) == r
  {
  }

  lemma TracksStuck(pending: string, open: seq<Task>, kind: Option<Kind>, s: string)
    requires Open(open) && Tracks(pending, open, kind, s) && !ParseTask(kind, s, |open|).Done?
    ensures ParseReply(pending, 0) == ParseTask(kind, s, |open|)
  {
    TracksNow(pending, open, kind, s);
    FinishStops(open, ParseTask(kind, s, |open|));
  }

  lemma {:induction false} TracksDone(pending: string, open: seq<Task>, kind: Kind, s: string, v: Reply, rest: string)
    requires Open(open) && Tracks(pending, open, Some(kind), s) && ParseBody(kind, s, |open|) == Done(v, rest)
    ensures NextTracks(pending, Close(open, v), rest)
  {
    hide Finish, ParseBody, ParseReply, Close;
    CloseMeans(open, v, rest);
    TracksNow(pending, open, Some(kind), s);
    if Close(open, v).Going? {
      var o := Close(open, v).open;
      forall t: string
        ensures ParseReply(pending + t, 0) == Finish(o, ParseTask(None, rest + t, |o|))
      {
        ParseBodyAppend(kind, s, t, |open|);
        CloseMeans(open, v, rest + t);
      }
    }
  }

  lemma {:induction false} TracksArray(pending: string, open: seq<Task>, f: Task, s: string)
    requires Open(open) && Open(open + [f]) && Tracks(pending, open, Some(ArrayKind), s)
    requires |open| < MAX_DEPTH && CrlfAt(s) < |s| && LineNumber(s[..CrlfAt(s)]) == f.elements > 0 && f.items == []
    ensures Tracks(pending, open + [f], None, s[CrlfAt(s) + 2..])
  {
    hide Finish, ParseReply, ParseBody, ParseItems, CrlfAt, LineNumber;
    forall t: string
      ensures ParseReply(pending + t, 0) == Finish(open + [f], ParseTask(None, s[CrlfAt(s) + 2..] + t, |open + [f]|))
    {
      ArrayEnters(open, f, s, t);
      assert ParseReply(pending + t, 0) == Finish(open, ParseTask(Some(ArrayKind), s + t, |open|));
    }
  }

  lemma ArrayEnters(open: seq<Task>, f: Task, s: string, t: string)
    requires Open(open) && Open(open + [f])
    requires |open| < MAX_DEPTH && CrlfAt(s) < |s| && LineNumber(s[..CrlfAt(s)]) == f.elements > 0 && f.items == []
    ensures Finish(open, ParseTask(Some(ArrayKind), s + t, |open|))
         == Finish(open + [f], ParseTask(None, s[CrlfAt(s) + 2..] + t, |open + [f]|))
  {
    hide *;
    var rest := s[CrlfAt(s) + 2..] + t;
    ArrayLine(s, t, |open|);
    OneMore(open, f, rest);
    TaskCases(s + t, rest, |open|);
  }

  lemma TaskCases(s: string, rest: string, depth: nat)
    ensures ParseTask(Some(ArrayKind), s, depth) == ParseBody(ArrayKind, s, depth)
    ensures ParseTask(None, rest, depth + 1) == ParseReply(rest, depth + 1)
  {
  }

  lemma ArrayLine(s: string, t: string, depth: nat)
    requires depth < MAX_DEPTH && CrlfAt(s) < |s| && LineNumber(s[..CrlfAt(s)]) > 0
    ensures var k := CrlfAt(s); var n := LineNumber(s[..k]);
            ParseBody(ArrayKind, s + t, depth) == Wrap(n, [], ParseItems(n, s[k + 2..] + t, depth + 1))
  {
    hide CrlfAt, LineNumber, ParseItems;
    var k := CrlfAt(s);
    CrlfAtAppend(s, t);
    assert (s + t)[..k] == s[..k] && (s + t)[k + 2..] == s[k + 2..] + t;
  }

  // ---- scanning ----

  /** A byte of the buffer; behind its end stands the terminator. */
  function ByteAt(s: string, i: nat): char { if i < |s| then s[i] else '\0' }

  lemma {:induction false} CrlfIs(s: string, k: nat)
    requires k <= |s| && (k < |s| ==> k + 1 < |s| && s[k] == '\r' && s[k + 1] == '\n')
    requires forall i :: 0 <= i < k && i + 1 < |s| ==> !(s[i] == '\r' && s[i + 1] == '\n')
    ensures CrlfAt(s) == k
  {
    hide CrlfAt;
  }

  /** seekNewline: the first line end, or |s| for NULL. */
  method SeekNewline(s: string) returns (k: nat)
    ensures k == CrlfAt(s)
  {
    hide CrlfAt;
    var pos, last := 0, |s| - 1;
    while pos < last
      invariant 0 <= pos <= |s|
      invariant forall i :: 0 <= i < pos && i + 1 < |s| ==> !(s[i] == '\r' && s[i + 1] == '\n')
    {
      while pos < last && s[pos] != '\r'
        invariant 0 <= pos <= last
        invariant forall i :: 0 <= i < pos && i + 1 < |s| ==> !(s[i] == '\r' && s[i + 1] == '\n')
      {
        pos := pos + 1;
      }
      if s[pos] != '\r' {
        CrlfIs(s, |s|);
        return |s|;
      }
      if ByteAt(s, pos + 1) == '\n' {
        CrlfIs(s, pos);
        return pos;
      }
      pos := pos + 1;
    }
    CrlfIs(s, |s|);
    return |s|;
  }

  lemma {:induction false} CrIs(s: string, k: nat)
    requires k < |s| && s[k] == '\r' && forall i :: 0 <= i < k ==> s[i] != '\r'
    ensures CrAt(s) == k
  {
    hide CrAt;
  }

  /** readLongLong: reads to the first carriage return, wherever the line ends. */
  method ReadLongLong(s: string) returns (n: int)
    requires CrAt(s) < |s|
    ensures n == Number(s[..CrAt(s)])
  {
    hide CrAt, Value;
    var v, mult, i := 0, 1, 0;
    if s[0] == '-' {
      mult, i := -1, 1;
    } else if s[0] == '+' {
      mult, i := 1, 1;
    }
    ghost var start := i;
    ghost var end := CrAt(s);
    ghost var text := s[..end];
    NothingYet(s, start);
    while s[i] != '\r'
      invariant start <= i <= end
      decreases end - i
      invariant AllDigits(s[start..i]) && v == Value(s[start..i])
    {
      var dec := s[i] as int - '0' as int;
      if 0 <= dec < 10 {
        ValueSnoc(s[start..i], s[i]);
        assert s[start..i + 1] == s[start..i] + [s[i]];
        v := v * 10 + dec;
      } else {
        assert !IsDigit(text[start..][i - start]);
        NotNumber(text, start);
        return -1;
      }
      i := i + 1;
    }
    CrIs(s, i);
    assert text[start..] == s[start..i];
    assert start == 0 ==> text == s[start..i];
    return mult * v;
  }

  lemma NothingYet(s: string, i: nat)
    requires i <= |s|
    ensures s[i..i] == "" && AllDigits("") && Value("") == 0
  {
  }

  lemma NotNumber(text: string, start: nat)
    requires text != "" && start == (if text[0] == '-' || text[0] == '+' then 1 else 0) && !AllDigits(text[start..])
    ensures Number(text) == -1
  {
    assert start == 0 ==> text[start..] == text;
  }

  /** The first carriage return of the buffer is where the number of its first line ends. */
  lemma NumberEnds(s: string)
    requires CrlfAt(s) < |s|
    ensures CrAt(s) < |s| && Number(s[..CrAt(s)]) == LineNumber(s[..CrlfAt(s)])
  {
    hide CrlfAt, CrAt, Number;
    var k := CrlfAt(s);
    var line := s[..k];
    var j := CrAt(line);
    if j < k { CrIs(s, j); } else { CrIs(s, k); }
    assert line[..j] == s[..j];
  }

  // ---- the reader ----

  /**
   A task stack: all tasks but the last are open arrays, and each task's index counts its parent's
   finished elements.
   */
  ghost predicate Chain(stack: seq<Task>) {
    && |stack| > 0 && Open(stack[..|stack| - 1])
    && forall i :: 0 <= i < |stack| - 1 ==> stack[i + 1].idx == |stack[i].items|
  }

  /** Popping a finished array: its parent becomes the one that misses an element. */
  lemma ChainPop(stack: seq<Task>, stack': seq<Task>)
    requires Chain(stack) && 1 < |stack| == |stack'| + 1
    requires forall i :: 0 <= i < |stack| - 2 ==> stack'[i] == stack[i]
    requires stack'[|stack| - 2].idx == stack[|stack| - 2].idx
    ensures Chain(stack') && stack'[..|stack'| - 1] == stack[..|stack| - 2]
  {
  }

  /** Going on with the next element of an array that misses more than one. */
  lemma ChainNext(stack: seq<Task>, stack': seq<Task>, v: Reply)
    requires Chain(stack) && 1 < |stack| == |stack'|
    requires forall i :: 0 <= i < |stack| - 2 ==> stack'[i] == stack[i]
    requires var f := stack[|stack| - 2];
             && |f.items| + 1 < f.elements && stack'[|stack| - 2] == f.(items := f.items + [v])
             && stack'[|stack| - 1].idx == |f.items| + 1
    ensures Chain(stack') && Close(stack[..|stack| - 1], v) == Going(stack'[..|stack| - 1])
  {
    var n := |stack|;
    var open := stack[..n - 1];
    assert open[|open| - 1] == stack[n - 2] && open[..|open| - 1] == stack[..n - 2];
    assert stack'[..n - 1] == stack[..n - 2] + [stack'[n - 2]];
  }

  lemma ClosePop(stack: seq<Task>, v: Reply)
    requires Chain(stack) && 1 < |stack|
    requires var f := stack[|stack| - 2]; |f.items| + 1 == f.elements
    ensures var f := stack[|stack| - 2];
            Close(stack[..|stack| - 1], v) == Close(stack[..|stack| - 2], Array(f.elements, f.items + [v]))
  {
    var open := stack[..|stack| - 1];
    assert open[|open| - 1] == stack[|stack| - 2] && open[..|open| - 1] == stack[..|stack| - 2];
  }

  lemma ChainPush(stack: seq<Task>, stack': seq<Task>, f: Task)
    requires Chain(stack) && |stack'| == |stack| + 1 && stack'[..|stack| - 1] == stack[..|stack| - 1]
    requires stack'[|stack| - 1] == f && f.kind == Some(ArrayKind) && f.items == [] && f.elements > 0
    requires f.idx == stack[|stack| - 1].idx && stack'[|stack|].idx == 0
    ensures Chain(stack') && stack'[..|stack|] == stack[..|stack| - 1] + [f] && Open(stack[..|stack| - 1] + [f])
  {
    var n := |stack|;
    assert stack'[..n] == stack[..n - 1] + [f];
    forall i | 0 <= i < n
      ensures stack'[i + 1].idx == |stack'[i].items|
    {
      if i < n - 1 {
        assert stack'[i] == stack'[..n - 1][i] == stack[..n - 1][i] == stack[i];
        if i + 1 < n - 1 { assert stack'[i + 1] == stack'[..n - 1][i + 1] == stack[..n - 1][i + 1] == stack[i + 1]; }
      }
    }
  }

  class Reader {
    var buf: string
    var pos: nat
    const rstack: array<Task>
    var ridx: int
    var err: Option<ProtocolError>
    var reply: Option<Reply>
    /** The bytes fed since the last reply was handed out. */
    ghost var pending: string

    /** The task index stays between -1 and 8. */
    ghost predicate Bounded()
      reads this
    {
      rstack.Length == MAX_DEPTH + 1 && -1 <= ridx <= MAX_DEPTH && pos <= |buf|
    }

    ghost predicate Stacked()
      reads this, rstack
    {
      Bounded() && ridx >= 0 && Chain(rstack[..ridx + 1])
    }

    ghost predicate OnTrack()
      reads this, rstack
      requires Stacked()
    {
      Open(rstack[..ridx]) && Tracks(pending, rstack[..ridx], rstack[ridx].kind, buf[pos..])
    }

    ghost predicate Refusing()
      reads this, rstack
      requires Bounded() && ridx >= 0
    {
      rstack[ridx].kind == Some(ArrayKind) && ridx == MAX_DEPTH
    }

    /** Between two calls. */
    ghost predicate Valid()
      reads this, rstack
    {
      && Bounded()
      && (err.Some? ==> ridx == -1 && buf == "")
      && (err.None? && ridx == -1 ==> pending == buf[pos..])
      && (err.None? && ridx >= 0 ==> Stacked() && OnTrack() && !Refusing())
    }

    /** Between two items of one call; a finished root reply has been parsed off the pending bytes. */
    ghost predicate Working()
      reads this, rstack
    {
      && Bounded() && err.None?
      && (ridx == -1 ==> reply.Some? && ParseReply(pending, 0) == Done(reply.value, buf[pos..]))
      && (ridx >= 0 ==> Stacked() && OnTrack() && !Refusing())
    }

    /** Unable to go on: more bytes are needed, or the input is no reply. */
    ghost predicate Stopped()
      reads this, rstack
    {
      && Bounded()
      && (err.None? ==> Working() && ridx >= 0 && ParseReply(pending, 0) == Incomplete)
      && (err.Some? ==> ridx == -1 && buf == "" && ParseReply(pending, 0) == Failure(err.value))
    }

    /** redisReaderCreateWithFunctions. */
    constructor ()
      ensures Valid() && err.None? && pending == "" && fresh(rstack)
    {
      buf, pos, ridx, err, reply, pending := "", 0, -1, None, None, "";
      rstack := new Task[MAX_DEPTH + 1](_ => Task(None, -1, -1, []));
    }

    /** __redisReaderSetError: drops the buffer, the tasks and the reply. */
    method SetError(e: ProtocolError)
      requires Bounded() && ParseReply(pending, 0) == Failure(e)
      modifies this`buf, this`pos, this`ridx, this`err, this`reply
      ensures Stopped() && err == Some(e)
    {
      reply, buf, pos, ridx, err := None, "", 0, -1, Some(e);
    }

    /** moveToNextTask, with v the value the current task produced. */
    method MoveToNextTask(v: Reply)
      requires Stacked()
      modifies this`ridx, this`reply, rstack
      ensures Bounded() && ridx <= old(ridx)
      ensures var next := Close(old(rstack[..ridx]), v);
              && (next.Finished? ==> ridx == -1 && reply == Some(next.v))
              && (next.Going? ==> Stacked() && rstack[..ridx] == next.open && rstack[ridx].kind == None)
    {
      hide Open, Close, Chain;
      ghost var next := Close(rstack[..ridx], v);
      var value := v;
      CloseRoot(rstack[..ridx], value);
      while ridx >= 0
        invariant Stacked() && ridx <= old(ridx) && Close(rstack[..ridx], value) == next
        invariant ridx == 0 ==> next == Finished(value)
        decreases ridx
      {
        if ridx == 0 {
          ridx := -1;
          reply := Some(value);
          return;
        }
        ghost var stack := rstack[..ridx + 1];
        ChainFacts(stack);
        var cur, prv := rstack[ridx], rstack[ridx - 1];
        var items := prv.items + [value];
        assert stack[..|stack| - 1] == rstack[..ridx];
        if cur.idx == prv.elements - 1 {
          ClosePop(stack, value);
          rstack[ridx - 1] := prv.(items := items);
          ridx := ridx - 1;
          ChainPop(stack, rstack[..ridx + 1]);
          assert rstack[..ridx] == stack[..|stack| - 2];
          value := Array(prv.elements, items);
          CloseRoot(rstack[..ridx], value);
        } else {
          rstack[ridx - 1] := prv.(items := items);
          rstack[ridx] := cur.(kind := None, elements := -1, idx := cur.idx + 1);
          ChainNext(stack, rstack[..ridx + 1], value);
          assert rstack[..ridx + 1][..ridx] == rstack[..ridx];
          return;
        }
      }
    }

    /** The current task has its value: the cursor moves behind it. */
    method Produce(v: Reply, bytes: nat)
      requires Stacked() && OnTrack() && err.None? && rstack[ridx].kind.Some? && 0 < bytes && pos + bytes <= |buf|
      requires ParseBody(rstack[ridx].kind.value, buf[pos..], ridx) == Done(v, buf[pos + bytes..])
      modifies this`pos, this`ridx, this`reply, rstack
      ensures Working() && pos == old(pos) + bytes
    {
      hide Chain, Open, Tracks, ParseBody, ParseReply, Close, NextTracks;
      TracksDone(pending, rstack[..ridx], rstack[ridx].kind.value, buf[pos..], v, buf[pos + bytes..]);
      NextCases(pending, Close(rstack[..ridx], v), buf[pos + bytes..]);
      pos := pos + bytes;
      MoveToNextTask(v);
    }

    /** processLineItem: an error, a status or an integer. */
    method ProcessLineItem() returns (ok: bool)
      requires Stacked() && OnTrack() && err.None? && !Refusing()
      requires rstack[ridx].kind in {Some(ErrorKind), Some(StatusKind), Some(IntegerKind)}
      modifies this`pos, this`ridx, this`reply, rstack
      ensures if ok then Working() && pos > old(pos) else Stopped()
    {
      hide Chain, Open, Tracks, ParseReply, CrlfAt, CrAt, LineNumber, Number, Finish;
      var s := buf[pos..];
      var kind := rstack[ridx].kind.value;
      var k := SeekNewline(s);
      if k == |s| {
        TracksStuck(pending, rstack[..ridx], Some(kind), s);
        return false;
      }
      assert s[k + 2..] == buf[pos + (k + 2)..];
      if kind == IntegerKind {
        NumberEnds(s);
        var n := ReadLongLong(s);
        Produce(Integer(n), k + 2);
      } else if kind == ErrorKind {
        Produce(Error(s[..k]), k + 2);
      } else {
        Produce(Status(s[..k]), k + 2);
      }
      return true;
    }

    /** processBulkItem: waits for the whole string and the two bytes behind it. */
    method ProcessBulkItem() returns (ok: bool)
      requires Stacked() && OnTrack() && err.None? && rstack[ridx].kind == Some(StringKind)
      modifies this`pos, this`ridx, this`reply, rstack
      ensures if ok then Working() && pos > old(pos) else Stopped()
    {
      hide Chain, Open, Tracks, ParseReply, CrlfAt, CrAt, LineNumber, Number, Finish, ParseBody;
      var s := buf[pos..];
      BulkBody(s, ridx);
      var k := SeekNewline(s);
      if k == |s| {
        TracksStuck(pending, rstack[..ridx], Some(StringKind), s);
        return false;
      }
      NumberEnds(s);
      var len := ReadLongLong(s);
      assert s[k + 2..] == buf[pos + (k + 2)..];
      if len < 0 {
        Produce(Nil, k + 2);
        return true;
      }
      var bytes := k + 2 + len + 2;
      if pos + bytes <= |buf| {
        assert s[k + 2..][len + 2..] == buf[pos + bytes..];
        Produce(Bulk(s[k + 2..][..len]), bytes);
        return true;
      }
      TracksStuck(pending, rstack[..ridx], Some(StringKind), s);
      return false;
    }

    /** processMultiBulkItem: pushes a task for the first element. */
    method ProcessMultiBulkItem() returns (ok: bool)
      requires Stacked() && OnTrack() && err.None? && rstack[ridx].kind == Some(ArrayKind)
      modifies this`buf, this`pos, this`ridx, this`err, this`reply, rstack
      ensures if ok then Working() && buf == old(buf) && pos > old(pos) else Stopped()
    {
      hide Chain, Open, Tracks, ParseReply, CrlfAt, CrAt, LineNumber, Number, Finish, ParseItems;
      var s := buf[pos..];
      if ridx == MAX_DEPTH {
        TracksStuck(pending, rstack[..ridx], Some(ArrayKind), s);
        SetError(TooDeep);
        return false;
      }
      var k := SeekNewline(s);
      if k == |s| {
        TracksStuck(pending, rstack[..ridx], Some(ArrayKind), s);
        return false;
      }
      NumberEnds(s);
      var elements := ReadLongLong(s);
      assert s[k + 2..] == buf[pos + (k + 2)..];
      if elements == -1 {
        Produce(Nil, k + 2);
      } else if elements <= 0 {
        Produce(Array(elements, []), k + 2);
      } else {
        Enter(elements, k + 2);
      }
      return true;
    }

    /** The task of a non-empty array is pushed. */
    method Enter(elements: int, bytes: nat)
      requires Stacked() && OnTrack() && err.None? && rstack[ridx].kind == Some(ArrayKind) && ridx < MAX_DEPTH
      requires var s := buf[pos..]; var k := CrlfAt(s); k < |s| && bytes == k + 2 && LineNumber(s[..k]) == elements > 0
      modifies this`pos, this`ridx, rstack
      ensures Working() && pos == old(pos) + bytes
    {
      hide Chain, Open, Tracks, ParseReply, CrlfAt, LineNumber;
      ghost var stack, s := rstack[..ridx + 1], buf[pos..];
      var f := rstack[ridx].(elements := elements, items := []);
      rstack[ridx] := f;
      pos := pos + bytes;
      ridx := ridx + 1;
      rstack[ridx] := Task(None, -1, 0, []);
      ghost var stack' := rstack[..ridx + 1];
      assert stack'[..|stack| - 1] == stack[..|stack| - 1] == old(rstack[..ridx]);
      ChainPush(stack, stack', f);
      assert rstack[..ridx] == stack'[..|stack|];
      TracksArray(pending, stack[..|stack| - 1], f, s);
      assert buf[pos..] == s[bytes..];
    }

    /** processItem: the type byte if it is still missing, and then the item. */
    method ProcessItem() returns (ok: bool)
      requires Working() && ridx >= 0
      modifies this`buf, this`pos, this`ridx, this`err, this`reply, rstack
      ensures if ok then Working() && buf == old(buf) && pos > old(pos) else Stopped()
    {
      hide Open, Tracks, ParseReply, Finish, Chain;
      if rstack[ridx].kind.None? {
        ghost var s, open, stack := buf[pos..], rstack[..ridx], rstack[..ridx + 1];
        if pos == |buf| {
          NothingToParse(ridx);
          TracksStuck(pending, open, None, s);
          return false;
        }
        var c := buf[pos];
        TracksType(pending, open, s);
        if KindOf(c).None? {
          SetError(BadTypeByte(c));
          return false;
        }
        pos := pos + 1;
        rstack[ridx] := rstack[ridx].(kind := KindOf(c));
        assert rstack[..ridx] == open && s[1..] == buf[pos..];
        ChainRetyped(stack, rstack[..ridx + 1]);
      }
      match rstack[ridx].kind.value
      case StringKind => ok := ProcessBulkItem();
      case ArrayKind => ok := ProcessMultiBulkItem();
      case _ => ok := ProcessLineItem();
    }

    /** redisReaderFeed: refused after an error. */
    method Feed(bytes: string) returns (ok: bool)
      requires Valid()
      modifies this`buf, this`pending
      ensures Valid() && ok == err.None?
      ensures pending == if err.None? then old(pending) + bytes else old(pending)
    {
      hide Open, Tracks, Chain;
      if err.Some? { return false; }
      if |bytes| >= 1 {
        ghost var unread := buf[pos..];
        if ridx >= 0 { TracksFeed(pending, rstack[..ridx], rstack[ridx].kind, unread, bytes); }
        buf := buf + bytes;
        assert buf[pos..] == unread + bytes;
      } else {
        assert pending + bytes == pending;
      }
      pending := pending + bytes;
      return true;
    }

    /** The tasks run until a root reply is complete or no byte helps. */
    method ProcessItems()
      requires Working() && ridx >= 0
      modifies this`buf, this`pos, this`ridx, this`err, this`reply, rstack
      ensures if err.None? && ridx == -1 then Working() else Stopped()
    {
      hide Open, Tracks, ParseReply, Chain;
      while ridx >= 0
        invariant Working() && buf == old(buf)
        decreases |buf| - pos
      {
        var ok := ProcessItem();
        if !ok { return; }
      }
    }

    /** redisReaderGetReply: what a recursive-descent parser finds at the start of the pending bytes. */
    method GetReply() returns (ok: bool, out: Option<Reply>)
      requires Valid()
      modifies this, rstack
      ensures Valid() && ok == err.None?
      ensures old(err).Some? ==> out == None && err == old(err) && pending == old(pending)
      ensures old(err).None? ==>
              out == (if ParseReply(old(pending), 0).Done? then Some(ParseReply(old(pending), 0).value) else None)
      ensures old(err).None? ==>
              err == (if ParseReply(old(pending), 0).Failure? then Some(ParseReply(old(pending), 0).error) else None)
      ensures old(err).None? ==>
                pending == if ParseReply(old(pending), 0).Done? then ParseReply(old(pending), 0).rest else old(pending)
    {
      hide Open, Tracks, ParseReply, Chain;
      out := None;
      if err.Some? { return false, None; }
      if |buf| == 0 {
        NothingPending();
        return true, None;
      }
      if ridx == -1 {
        rstack[0] := Task(None, -1, -1, []);
        ridx := 0;
        TracksStart(pending);
        assert rstack[..0] == [] && rstack[..1] == [rstack[0]];
        ChainRoot(rstack[0]);
      }
      ProcessItems();
      if err.Some? { return false, None; }
      if pos >= 1024 {
        buf := buf[pos..];
        pos := 0;
        assert buf[pos..] == buf;
      }
      if ridx == -1 {
        out := reply;
        reply := None;
        pending := buf[pos..];
      }
      return true, out;
    }

    /** With no bytes at all, no reply is due. */
    lemma NothingPending()
      requires Valid() && err.None? && |buf| == 0
      ensures ParseReply(pending, 0) == Incomplete
    {
      if ridx >= 0 {
        NoBody(rstack[ridx].kind, ridx);
        TracksStuck(pending, rstack[..ridx], rstack[ridx].kind, "");
      }
    }
  }

  /** When a bulk string is complete. */
  lemma BulkBody(s: string, depth: nat)
    ensures ParseTask(Some(StringKind), s, depth) == ParseBody(StringKind, s, depth)
    ensures var k := CrlfAt(s);
            if k == |s| then ParseBody(StringKind, s, depth) == Incomplete
            else
              var n := LineNumber(s[..k]);
              && (n < 0 ==> ParseBody(StringKind, s, depth) == Done(Nil, s[k + 2..]))
              && (n >= 0 && k + 2 + n + 2 <= |s| ==>
                   ParseBody(StringKind, s, depth) == Done(Bulk(s[k + 2..][..n]), s[k + 2..][n + 2..]))
              && (n >= 0 && k + 2 + n + 2 > |s| ==> ParseBody(StringKind, s, depth) == Incomplete)
  {
    hide CrlfAt, LineNumber;
  }

  lemma NextCases(pending: string, next: Next, rest: string)
    requires NextTracks(pending, next, rest)
    ensures next.Finished? ==> ParseReply(pending, 0) == Done(next.v, rest)
    ensures next.Going? ==> Open(next.open) && Tracks(pending, next.open, None, rest)
  {
  }

  lemma NothingToParse(depth: nat)
    ensures ParseReply("", depth) == Incomplete
  {
  }

  lemma NoBody(kind: Option<Kind>, depth: nat)
    requires !(kind == Some(ArrayKind) && depth == MAX_DEPTH)
    ensures ParseTask(kind, "", depth) == Incomplete
  {
  }

  lemma ChainRetyped(stack: seq<Task>, stack': seq<Task>)
    requires Chain(stack) && |stack'| == |stack| && stack'[..|stack| - 1] == stack[..|stack| - 1]
    requires stack'[|stack| - 1].idx == stack[|stack| - 1].idx
    ensures Chain(stack')
  {
    forall i | 0 <= i < |stack| - 1
      ensures stack'[i + 1].idx == |stack'[i].items|
    {
      assert stack'[i] == stack'[..|stack| - 1][i] == stack[..|stack| - 1][i] == stack[i];
      if i + 1 < |stack| - 1 { assert stack'[i + 1] == stack'[..|stack| - 1][i + 1] == stack[..|stack| - 1][i + 1]; }
    }
  }

  lemma ChainRoot(task: Task)
    ensures Chain([task]) && Open([])
  {
  }

  lemma CloseRoot(open: seq<Task>, v: Reply)
    ensures |open| == 0 ==> Close(open, v) == Finished(v)
  {
  }

  lemma ChainFacts(stack: seq<Task>)
    requires Chain(stack) && |stack| > 1
    ensures var f, c := stack[|stack| - 2], stack[|stack| - 1];
            f.kind == Some(ArrayKind) && c.idx == |f.items| < f.elements
  {
    assert stack[|stack| - 2] == stack[..|stack| - 1][|stack| - 2];
    assert stack[|stack| - 2 + 1].idx == |stack[|stack| - 2].items|;
  }

  /** What a reader has come to: the bytes it still holds, or its error. */
  ghost function EndingOf(r: Reader): Ending
    reads r
  {
    if r.err.Some? then Broken(r.err.value) else Pending(r.pending)
  }

  /** Taking replies until none is due. */
  method Drain(r: Reader) returns (replies: seq<Reply>)
    requires r.Valid() && r.err.None?
    modifies r, r.rstack
    ensures r.Valid() && Stream(replies, EndingOf(r)) == ParseAll(old(r.pending))
  {
    hide ParseReply, Reader.Valid;
    replies := [];
    ghost var all := ParseAll(r.pending);
    while true
      invariant r.Valid() && r.err.None?
      invariant all == Stream(replies + ParseAll(r.pending).replies, ParseAll(r.pending).ending)
      decreases |r.pending|
    {
      ghost var s := r.pending;
      var ok, reply := r.GetReply();
      if !ok || reply.None? {
        assert replies + [] == replies;
        return;
      }
      assert replies + ParseAll(s).replies == (replies + [reply.value]) + ParseAll(r.pending).replies;
      replies := replies + [reply.value];
    }
  }

  /** Feeding a stream in pieces and draining after each gives its replies and its error, however it is cut. */
  method FeedInChunks(chunks: seq<string>) returns (r: Reader, replies: seq<Reply>)
    ensures fresh(r) && r.Valid()
    ensures Stream(replies, EndingOf(r)) == ParseAll(Join(chunks))
  {
    hide ParseAll, Reader.Valid;
    r := new Reader();
    replies := [];
    for i := 0 to |chunks|
      invariant fresh(r) && fresh(r.rstack) && r.Valid()
      invariant Stream(replies, EndingOf(r)) == Chunked(chunks[..i])
    {
      ghost var so := chunks[..i + 1];
      assert so[..|so| - 1] == chunks[..i];
      ghost var s := r.pending;
      var ok := r.Feed(chunks[i]);
      if ok {
        var more := Drain(r);
        replies := replies + more;
      }
    }
    assert chunks[..|chunks|] == chunks;
    ChunkingIsInvisible(chunks);
  }
}
