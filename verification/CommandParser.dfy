/**
 The command-parsing automaton redis_parse_cmd (harvester/producer-cli/command.c:315-1621): its
 meaning field by field, and the byte-by-byte loop proved equal to it on every input.
 Positions are offsets into the command buffer; 32-bit lengths are unbounded.
 */
module CommandParser {
  import opened Decimal
  import opened Optional
  import opened Commands

  /** The parts of a command; the automaton has four states for each. */
  datatype Field = Name | Key | Arg1 | Arg2 | Arg3 | ArgN

  /** A struct keypos: where a key starts and where it ends. */
  datatype KeyPos = KeyPos(start: nat, end: nat)

  /** Accepted and RanOut both leave the result at CMD_PARSE_OK: the loop may end before the command does. */
  datatype Outcome = Accepted(t: CmdType, keys: seq<KeyPos>) | RanOut(keys: seq<KeyPos>) | Rejected

  datatype Next = Fail | Finish | Go(f: Field)

  /** What is known once the argument count has been read. */
  datatype Progress = Progress(narg: nat, rnarg: nat, t: Option<CmdType>, keys: seq<KeyPos>)

  /** Where to go after a complete field, with rnarg arguments still to come. */
  function After(f: Field, a: Arity, narg: nat, rnarg: nat): Next {
    match f
    case Name =>
      if a.Keyless? then Finish else if a.Script? then Go(Arg1) else Go(Key)
    case Key =>
      (match a
       case Fixed(n) => if rnarg != n then Fail else if n == 0 then Finish else Go(Arg1)
       case Variadic => if rnarg == 0 then Finish else Go(Arg1)
       case Keys => if rnarg == 0 then Finish else Go(Key)
       case Pairs => if rnarg == 0 then Finish else if narg % 2 == 0 then Fail else Go(Arg1)
       case Script => if rnarg == 0 then Finish else Go(ArgN)
       case Keyless => Fail)
    case Arg1 =>
      (match a
       case Fixed(n) => if n == 0 || rnarg != n - 1 then Fail else if n == 1 then Finish else Go(Arg2)
       case Variadic => if rnarg == 0 then Finish else Go(ArgN)
       case Script => if rnarg < 2 then Fail else Go(Arg2)
       case Pairs => if rnarg == 0 then Finish else Go(Key)
       case _ => Fail)
    case Arg2 =>
      (match a
       case Fixed(n) => if n < 2 || rnarg != n - 2 then Fail else if n == 2 then Finish else Go(Arg3)
       case Variadic => if rnarg == 0 then Finish else Go(ArgN)
       case Script => if rnarg < 1 then Fail else Go(Key)
       case _ => Fail)
    case Arg3 =>
      (match a
       case Fixed(n) => if n != 3 || rnarg != 0 then Fail else Finish
       case Variadic => if rnarg == 0 then Finish else Go(ArgN)
       case _ => Fail)
    case ArgN =>
      if a.Variadic? || a.Script? then if rnarg == 0 then Finish else Go(ArgN) else Fail
  }

  // ---- the meaning, field by field ----

  /** Reading digits up to a carriage return. */
  datatype Scan = Found(value: nat, at: nat) | ScanCut | ScanBad

  function ReadNumber(s: string, p: nat, acc: nat): (r: Scan)
    requires p <= |s|
    ensures r.Found? ==> p <= r.at < |s| && s[r.at] == '\r'
    decreases |s| - p
  {
    if p == |s| then ScanCut
    else if IsDigit(s[p]) then ReadNumber(s, p + 1, acc * 10 + DigitValue(s[p]))
    else if s[p] == '\r' then Found(acc, p)
    else ScanBad
  }

  /** The checks made when the length of a field is complete. */
  predicate LengthAllowed(f: Field, digits: nat, len: nat, rnarg: nat) {
    && rnarg > 0
    && (f == Name ==> len > 0)
    && (f !in {Name, Key} ==> digits > 0)
  }

  /** One argument has begun. */
  function OneLess(g: Progress): Progress { if g.rnarg == 0 then g else g.(rnarg := g.rnarg - 1) }

  /** For EVAL and EVALSHA the second argument is a positive number of keys. */
  predicate CountsKeys(text: string) { text != "" && AllDigits(text) && Value(text) != 0 }

  function ArityIn(g: Progress): Arity { if g.t.Some? then ArityOf(g.t.value) else Keyless }

  /** What the contents of a field add to the command; None if they are refused. */
  function Take(f: Field, text: string, at: KeyPos, g: Progress): Option<Progress> {
    match f
    case Name => if TypeOf(text).None? then None else Some(g.(t := TypeOf(text)))
    case Key => Some(g.(keys := g.keys + [at]))
    case Arg2 => if ArityIn(g).Script? && !CountsKeys(text) then None else Some(g)
    case _ => Some(g)
  }

  /** Fields from position p on, the first of them being f. */
  function Fields(s: string, f: Field, p: nat, g: Progress): Outcome
    requires p <= |s|
    decreases |s| - p, 9
  {
    if p == |s| then RanOut(g.keys)
    else if s[p] != '$' then Rejected
    else AtLength(s, f, p + 1, ReadNumber(s, p + 1, 0), g)
  }

  /** The length that starts at position d has been scanned. */
  function AtLength(s: string, f: Field, d: nat, n: Scan, g: Progress): Outcome
    requires n.Found? ==> d <= n.at < |s|
    decreases |s| - d, 8
  {
    match n
    case ScanCut => RanOut(g.keys)
    case ScanBad => Rejected
    case Found(len, at) =>
      if LengthAllowed(f, at - d, len, g.rnarg) then AtLengthEnd(s, f, at + 1, len, OneLess(g))
      else Rejected
  }

  function AtLengthEnd(s: string, f: Field, p: nat, len: nat, g: Progress): Outcome
    requires p <= |s|
    decreases |s| - p, 7
  {
    if p == |s| then RanOut(g.keys)
    else if s[p] != '\n' then Rejected
    else AtBody(s, f, p + 1, len, g)
  }

  /** The contents are skipped by their length, whatever bytes they hold. */
  function AtBody(s: string, f: Field, p: nat, len: nat, g: Progress): Outcome
    requires p <= |s|
    decreases |s| - p, 6
  {
    if p == |s| then RanOut(g.keys)
    else if p + len >= |s| || s[p + len] != '\r' then Rejected
    else
      var g' := Take(f, s[p..p + len], KeyPos(p, p + len), g);
      if g'.None? then Rejected else AtBodyEnd(s, f, p + len + 1, g'.value)
  }

  function AtBodyEnd(s: string, f: Field, p: nat, g: Progress): Outcome
    requires p <= |s|
    decreases |s| - p, 5
  {
    if p == |s| then RanOut(g.keys)
    else if s[p] != '\n' || g.t.None? then Rejected
    else match After(f, ArityIn(g), g.narg, g.rnarg)
      case Fail => Rejected
      case Finish => Accepted(g.t.value, g.keys)
      case Go(next) => Fields(s, next, p + 1, g)
  }

  /** The argument count has been scanned. */
  function AtCount(s: string, n: Scan): Outcome
    requires n.Found? ==> n.at < |s|
  {
    match n
    case ScanCut => RanOut([])
    case ScanBad => Rejected
    case Found(count, at) => if count == 0 then Rejected else AtCountEnd(s, at + 1, count)
  }

  function AtCountEnd(s: string, p: nat, count: nat): Outcome
    requires p <= |s|
  {
    if p == |s| then RanOut([])
    else if s[p] != '\n' then Rejected
    else Fields(s, Name, p + 1, Progress(count, count, None, []))
  }

  /** The meaning of a command buffer. */
  function Parse(s: string): Outcome {
    if s == "" then RanOut([])
    else if s[0] != '*' then Rejected
    else AtCount(s, ReadNumber(s, 1, 0))
  }

  // ---- the automaton ----

  /** The automaton's state variable; each field has the four states LEN, LEN_LF, body and LF. */
  datatype State = Start | Narg | NargLf | Len(f: Field) | LenLf(f: Field) | Body(f: Field) | BodyLf(f: Field)

  /** What the rest of the buffer means in a state, with token the position of the '*' or '$' being read. */
  ghost function Rest(s: string, state: State, p: nat, token: Option<nat>, rlen: nat, g: Progress): Outcome
    requires p <= |s|
    requires state.Start? ==> p == 0
    requires state.Len? && token.Some? ==> token.value < p
  {
    match state
    case Start => Parse(s)
    case Narg => AtCount(s, ReadNumber(s, p, g.rnarg))
    case NargLf => AtCountEnd(s, p, g.rnarg)
    case Len(f) =>
      if token.None? then Fields(s, f, p, g) else AtLength(s, f, token.value + 1, ReadNumber(s, p, rlen), g)
    case LenLf(f) => AtLengthEnd(s, f, p, rlen, g)
    case Body(f) => AtBody(s, f, p, rlen, g)
    case BodyLf(f) => AtBodyEnd(s, f, p, g)
  }

  /** The key count of EVAL: digits only, and not zero. */
  method ReadKeyCount(s: string, from: nat, to: nat) returns (ok: bool)
    requires from <= to <= |s|
    ensures ok == CountsKeys(s[from..to])
  {
    hide Value;
    if to - from < 1 { return false; }
    var nkey, chp := 0, from;
    assert s[from..from] == "";
    EmptyValue();
    while chp < to
      invariant from <= chp <= to
      invariant AllDigits(s[from..chp]) && nkey == Value(s[from..chp])
    {
      if !IsDigit(s[chp]) {
        assert s[from..to][chp - from] == s[chp];
        return false;
      }
      assert s[from..chp + 1] == s[from..chp] + [s[chp]];
      ValueSnoc(s[from..chp], s[chp]);
      nkey := nkey * 10 + DigitValue(s[chp]);
      chp := chp + 1;
    }
    return nkey != 0;
  }

  lemma EmptyValue()
    ensures Value("") == 0
  {
  }

  /** Contents of a field: the name is looked up, a key is recorded, a key count is checked. */
  method TakeField(s: string, f: Field, p: nat, m: nat, g: Progress) returns (g': Option<Progress>)
    requires p <= m <= |s|
    ensures g' == Take(f, s[p..m], KeyPos(p, m), g)
  {
    hide TypeOf, CountsKeys, ArityOf;
    match f
    case Name => g' := if TypeOf(s[p..m]).None? then None else Some(g.(t := TypeOf(s[p..m])));
    case Key => g' := Some(g.(keys := g.keys + [KeyPos(p, m)]));
    case Arg2 =>
      if ArityIn(g).Script? {
        var ok := ReadKeyCount(s, p, m);
        g' := if ok then Some(g) else None;
      } else {
        g' := Some(g);
      }
    case _ => g' := Some(g);
  }

  /** redis_parse_cmd: one pass with a state variable, which skips field contents by their length. */
  method ParseCommand(s: string) returns (o: Outcome)
    ensures o == Parse(s)
  {
    hide Fields, AtLength, AtLengthEnd, AtBody, AtBodyEnd, Take, LengthAllowed, ReadNumber, After, AtCount, AtCountEnd;
    var state: State, token: Option<nat>, rlen: nat := Start, None, 0;
    var g := Progress(0, 0, None, []);
    var p := 0;
    while p < |s|
      invariant p <= |s| && (state.Start? ==> p == 0 && g == Progress(0, 0, None, []))
      invariant state.Narg? ==> p > 0 && g.keys == []
      invariant state.NargLf? ==> g == Progress(g.rnarg, g.rnarg, None, [])
      invariant state.Len? && token.Some? ==> token.value < p
      invariant token.Some? ==> state.Len? || state.Narg?
      invariant Rest(s, state, p, token, rlen, g) == Parse(s)
      decreases |s| - p
    {
      var ch := s[p];
      match state {
      case Start =>
        if ch != '*' { return Rejected; }
        token, state := Some(p), Narg;
      case Narg =>
        CountStep(s, p, g.rnarg);
        if IsDigit(ch) {
          g := g.(rnarg := g.rnarg * 10 + DigitValue(ch));
        } else if ch == '\r' && g.rnarg != 0 {
          g, token, state := Progress(g.rnarg, g.rnarg, None, []), None, NargLf;
        } else {
          return Rejected;
        }
      case NargLf =>
        CountEndStep(s, p, g.rnarg);
        if ch != '\n' { return Rejected; }
        state := Len(Name);
      case Len(f) =>
        LengthStep(s, f, p, token, rlen, g);
        if token.None? {
          if ch != '$' { return Rejected; }
          token, rlen := Some(p), 0;
        } else if IsDigit(ch) {
          rlen := rlen * 10 + DigitValue(ch);
        } else if ch == '\r' && LengthAllowed(f, p - token.value - 1, rlen, g.rnarg) {
          g, token, state := OneLess(g), None, LenLf(f);
        } else {
          return Rejected;
        }
      case LenLf(f) =>
        EndSteps(s, f, p, rlen, g);
        if ch != '\n' { return Rejected; }
        state := Body(f);
      case Body(f) =>
        EndSteps(s, f, p, rlen, g);
        var m := p + rlen;
        if m >= |s| || s[m] != '\r' { return Rejected; }
        var g' := TakeField(s, f, p, m, g);
        if g'.None? { return Rejected; }
        p, rlen, g, state := m, 0, g'.value, BodyLf(f);
      case BodyLf(f) =>
        EndSteps(s, f, p, rlen, g);
        if ch != '\n' || g.t.None? { return Rejected; }
        match After(f, ArityIn(g), g.narg, g.rnarg) {
          case Fail => return Rejected;
          case Finish => return Accepted(g.t.value, g.keys);
          case Go(next) => state := Len(next);
        }
      }
      p := p + 1;
    }
    AtTheEnd(s, state, token, rlen, g);
    return RanOut(g.keys);
  }

  lemma CountStep(s: string, p: nat, acc: nat)
    requires p < |s|
    ensures AtCount(s, ReadNumber(s, p, acc))
         == if IsDigit(s[p]) then AtCount(s, ReadNumber(s, p + 1, acc * 10 + DigitValue(s[p])))
            else if s[p] == '\r' && acc != 0 then AtCountEnd(s, p + 1, acc)
            else Rejected
  {
  }

  lemma CountEndStep(s: string, p: nat, count: nat)
    requires p < |s|
    ensures AtCountEnd(s, p, count)
         == if s[p] != '\n' then Rejected else Fields(s, Name, p + 1, Progress(count, count, None, []))
  {
  }

  lemma LengthStep(s: string, f: Field, p: nat, token: Option<nat>, rlen: nat, g: Progress)
    requires p < |s| && (token.Some? ==> token.value < p)
    ensures token.None? ==>
              Fields(s, f, p, g) == if s[p] != '$' then Rejected else AtLength(s, f, p + 1, ReadNumber(s, p + 1, 0), g)
    ensures token.Some? ==>
              (AtLength(s, f, token.value + 1, ReadNumber(s, p, rlen), g)
               == if IsDigit(s[p]) then
                    AtLength(s, f, token.value + 1, ReadNumber(s, p + 1, rlen * 10 + DigitValue(s[p])), g)
                  else if s[p] == '\r' && LengthAllowed(f, p - token.value - 1, rlen, g.rnarg)
                  then AtLengthEnd(s, f, p + 1, rlen, OneLess(g))
                  else Rejected)
  {
  }

  lemma EndSteps(s: string, f: Field, p: nat, rlen: nat, g: Progress)
    requires p < |s|
    ensures AtLengthEnd(s, f, p, rlen, g) == if s[p] != '\n' then Rejected else AtBody(s, f, p + 1, rlen, g)
    ensures AtBody(s, f, p, rlen, g)
         == if p + rlen >= |s| || s[p + rlen] != '\r' then Rejected
            else
              var g' := Take(f, s[p..p + rlen], KeyPos(p, p + rlen), g);
              if g'.None? then Rejected else AtBodyEnd(s, f, p + rlen + 1, g'.value)
    ensures AtBodyEnd(s, f, p, g)
         == if s[p] != '\n' || g.t.None? then Rejected
            else match After(f, ArityIn(g), g.narg, g.rnarg)
              case Fail => Rejected
              case Finish => Accepted(g.t.value, g.keys)
              case Go(next) => Fields(s, next, p + 1, g)
  {
  }

  lemma AtTheEnd(s: string, state: State, token: Option<nat>, rlen: nat, g: Progress)
    requires state.Start? ==> |s| == 0 && g.keys == []
    requires state.Len? && token.Some? ==> token.value < |s|
    requires state.Narg? || state.NargLf? ==> g.keys == []
    ensures Rest(s, state, |s|, token, rlen, g) == RanOut(g.keys)
  {
  }
}
