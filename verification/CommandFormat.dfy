/**
 The command printer redisFormatCommandArgv (harvester/producer-cli/hiredis.c:530-566), and what the
 parsing automaton makes of its output: the command is accepted exactly when its arity is legal, and
 the keys found are exactly the key arguments, whatever bytes the arguments hold.
 */
module CommandFormat {
  import opened Decimal
  import opened Optional
  import opened Commands
  import opened CommandParser

  function Bulk(x: string): string { "$" + Digits(|x|) + "\r\n" + x + "\r\n" }

  function Bulks(xs: seq<string>): string {
    if xs == [] then "" else Bulks(xs[..|xs| - 1]) + Bulk(xs[|xs| - 1])
  }

  function Header(n: nat): string { "*" + Digits(n) + "\r\n" }

  function Format(argv: seq<string>): string { Header(|argv|) + Bulks(argv) }

  // ---- the printer ----

  /** memcpy or sprintf into the buffer at a position. */
  method Put(buf: array<char>, pos: nat, text: string) returns (pos': nat)
    requires pos + |text| <= buf.Length
    modifies buf
    ensures pos' == pos + |text| && buf[..pos'] == old(buf[..pos]) + text
  {
    for i := 0 to |text|
      invariant buf[..pos + i] == old(buf[..pos]) + text[..i]
    {
      ghost var before := buf[..pos + i];
      buf[pos + i] := text[i];
      assert buf[..pos + i + 1] == before + [text[i]];
      assert text[..i + 1] == text[..i] + [text[i]];
    }
    assert text[..|text|] == text;
    return pos + |text|;
  }

  /** bulklen: the length of any printed argument of this many bytes. */
  method BulkLength(len: nat) returns (n: nat)
    ensures forall x :: |x| == len ==> |Bulk(x)| == n
  {
    var digits := CountDigits(len);
    return 1 + digits + 2 + len + 2;
  }

  lemma {:induction false} BulksPrefix(xs: seq<string>, i: nat)
    requires i <= |xs|
    ensures |Bulks(xs[..i])| <= |Bulks(xs)|
  {
    if i < |xs| {
      assert xs[..|xs| - 1][..i] == xs[..i];
      BulksPrefix(xs[..|xs| - 1], i);
    } else {
      assert xs[..i] == xs;
    }
  }

  /** The first i + 1 printed arguments are the first i and one more. */
  lemma BulksNext(xs: seq<string>, i: nat)
    requires i < |xs|
    ensures Bulks(xs[..i + 1]) == Bulks(xs[..i]) + Bulk(xs[i])
    ensures |Bulks(xs[..i + 1])| == |Bulks(xs[..i])| + |Bulk(xs[i])| <= |Bulks(xs)|
  {
    var ys := xs[..i + 1];
    assert ys[..|ys| - 1] == xs[..i] && ys[|ys| - 1] == xs[i];
    BulksPrefix(xs, i + 1);
  }

  /** redisFormatCommandArgv: the precomputed length is filled exactly, and terminated. */
  method FormatCommandArgv(argv: seq<string>) returns (cmd: array<char>, totlen: nat)
    ensures totlen == |Format(argv)| && cmd.Length == totlen + 1
    ensures cmd[..totlen] == Format(argv) && cmd[totlen] == '\0'
  {
    hide Digits, Bulks, Bulk;
    var digits := CountDigits(|argv|);
    totlen := 1 + digits + 2;
    NoBulks(argv);
    for j := 0 to |argv|
      invariant totlen == |Header(|argv|)| + |Bulks(argv[..j])|
    {
      BulksNext(argv, j);
      var n := BulkLength(|argv[j]|);
      totlen := totlen + n;
    }
    cmd := new char[totlen + 1];
    var pos := Put(cmd, 0, Header(|argv|));
    assert argv[..|argv|] == argv;
    for j := 0 to |argv|
      invariant pos == |Header(|argv|)| + |Bulks(argv[..j])| <= totlen
      invariant cmd[..pos] == Header(|argv|) + Bulks(argv[..j])
    {
      BulksNext(argv, j);
      pos := PutBulk(cmd, pos, argv[j]);
    }
    cmd[pos] := '\0';
  }

  /** One argument: its length line, its bytes and a line end. */
  method PutBulk(cmd: array<char>, pos: nat, x: string) returns (pos': nat)
    requires pos + |Bulk(x)| <= cmd.Length
    modifies cmd
    ensures pos' == pos + |Bulk(x)| && cmd[..pos'] == old(cmd[..pos]) + Bulk(x)
  {
    hide Digits;
    ghost var done := cmd[..pos];
    pos' := Put(cmd, pos, "$" + Digits(|x|) + "\r\n");
    pos' := Put(cmd, pos', x);
    pos' := Put(cmd, pos', "\r\n");
    assert cmd[..pos'] == done + Bulk(x);
  }

  lemma NoBulks(argv: seq<string>)
    ensures Bulks(argv[..0]) == ""
  {
  }

  // ---- what the automaton makes of it ----

  /** Where argument i starts, with its length line. */
  function Offset(argv: seq<string>, i: nat): nat
    requires i <= |argv|
  {
    |Header(|argv|)| + |Bulks(argv[..i])|
  }

  /** Where the bytes of argument i are. */
  function Place(argv: seq<string>, i: nat): KeyPos
    requires i < |argv|
  {
    var start := Offset(argv, i) + 1 + |Digits(|argv[i]|)| + 2;
    KeyPos(start, start + |argv[i]|)
  }

  /** One argument of the printed command, in place. */
  ghost predicate Printed(s: string, p: nat, x: string) {
    p + |Bulk(x)| <= |s| && s[p..p + |Bulk(x)|] == Bulk(x)
  }

  lemma {:induction false} PrintedAt(argv: seq<string>, i: nat)
    requires i < |argv|
    ensures Printed(Format(argv), Offset(argv, i), argv[i])
    ensures Offset(argv, i + 1) == Offset(argv, i) + |Bulk(argv[i])| <= |Format(argv)|
  {
    hide Bulks, Bulk, Header;
    BulksNext(argv, i);
    BulksSplit(argv, i + 1);
    Slice(Header(|argv|), Bulks(argv), Bulks(argv[..i]), Bulk(argv[i]));
  }

  /** Where a piece stands behind a header and the pieces before it. */
  lemma Slice(h: string, all: string, before: string, piece: string)
    requires |before| + |piece| <= |all| && all[..|before| + |piece|] == before + piece
    ensures (h + all)[|h| + |before|..|h| + |before| + |piece|] == piece
  {
    var n, m := |before|, |piece|;
    assert (h + all)[|h| + n..|h| + n + m] == all[n..n + m];
    assert all[n..n + m] == all[..n + m][n..];
  }

  lemma {:induction false} BulksSplit(xs: seq<string>, i: nat)
    requires i <= |xs|
    ensures |Bulks(xs[..i])| <= |Bulks(xs)| && Bulks(xs)[..|Bulks(xs[..i])|] == Bulks(xs[..i])
  {
    if i < |xs| {
      assert xs[..|xs| - 1][..i] == xs[..i];
      BulksSplit(xs[..|xs| - 1], i);
    } else {
      assert xs[..i] == xs;
    }
  }

  lemma OffsetEnd(argv: seq<string>)
    ensures Offset(argv, |argv|) == |Format(argv)|
  {
    assert argv[..|argv|] == argv;
  }

  /** The bytes at the place of an argument are that argument. */
  lemma PlaceHolds(argv: seq<string>, i: nat)
    requires i < |argv|
    ensures var k := Place(argv, i); k.start <= k.end <= |Format(argv)| && Format(argv)[k.start..k.end] == argv[i]
  {
    hide Digits, Format, Header, Bulks;
    PrintedAt(argv, i);
    InPlaceText(Format(argv), Offset(argv, i), argv[i]);
  }

  lemma InPlaceText(s: string, p: nat, x: string)
    requires Printed(s, p, x)
    ensures var a := p + 1 + |Digits(|x|)| + 2; var d := Digits(|x|);
            && p + |Bulk(x)| == a + |x| + 2 <= |s|
            && s[p] == '$' && s[p + 1..p + 1 + |d|] == d && s[a - 2] == '\r' && s[a - 1] == '\n'
            && s[a..a + |x|] == x && s[a + |x|] == '\r' && s[a + |x| + 1] == '\n'
  {
    hide Digits, Bulk;
    var d, b := Digits(|x|), Bulk(x);
    var n := 1 + |d| + 2;
    BulkParts(d, x, b);
    Shift(s, p, b, 0, 1);
    Shift(s, p, b, 1, 1 + |d|);
    Shift(s, p, b, n - 2, n - 1);
    Shift(s, p, b, n - 1, n);
    Shift(s, p, b, n, n + |x|);
    Shift(s, p, b, n + |x|, n + |x| + 1);
    Shift(s, p, b, n + |x| + 1, n + |x| + 2);
  }

  lemma BulkParts(d: string, x: string, b: string)
    requires b == Bulk(x) && d == Digits(|x|)
    ensures var n := 1 + |d| + 2;
            && |b| == n + |x| + 2 && b[0] == '$' && b[1..1 + |d|] == d && b[n - 2] == '\r' && b[n - 1] == '\n'
            && b[n..n + |x|] == x && b[n + |x|] == '\r' && b[n + |x| + 1] == '\n'
  {
    hide Digits;
    var e := "$" + d;
    var f := e + "\r\n";
    var g := f + x;
    Pieces("$", d, "\r\n");
    Pieces(f, x, "\r\n");
    Within(e, "\r\n", 1, 1 + |d|);
    Within(f, x, 1, 1 + |d|);
    Within(g, "\r\n", 1, 1 + |d|);
  }

  lemma Pieces(a: string, x: string, b: string)
    ensures (a + x + b)[|a|..|a| + |x|] == x && (a + x)[|a|..] == x
  {
  }

  lemma Within(a: string, b: string, i: nat, j: nat)
    requires i <= j <= |a|
    ensures (a + b)[i..j] == a[i..j]
  {
  }

  /** A slice of a slice. */
  lemma Shift(s: string, p: nat, b: string, i: nat, j: nat)
    requires p + |b| <= |s| && s[p..p + |b|] == b && i <= j <= |b|
    ensures s[p + i..p + j] == b[i..j] && (i < j ==> s[p + i] == b[i])
  {
    forall k | 0 <= k < j - i
      ensures s[p + i..p + j][k] == b[i..j][k]
    {
      assert s[p + i + k] == s[p..p + |b|][i + k];
    }
    if i < j { assert s[p + i] == s[p..p + |b|][i]; }
  }

  lemma {:induction false} ReadPrefix(s: string, p: nat, d: string, j: nat)
    requires p + |d| < |s| && s[p..p + |d|] == d && AllDigits(d) && j <= |d|
    ensures Value(d[..j]) >= 0 && ReadNumber(s, p, 0) == ReadNumber(s, p + j, Value(d[..j]))
  {
    if j > 0 {
      ReadPrefix(s, p, d, j - 1);
      assert d[..j] == d[..j - 1] + [d[j - 1]];
      ValueSnoc(d[..j - 1], d[j - 1]);
      assert s[p + j - 1] == s[p..p + |d|][j - 1];
    }
  }

  lemma ReadDigits(s: string, p: nat, n: nat)
    requires p + |Digits(n)| < |s| && s[p..p + |Digits(n)|] == Digits(n) && s[p + |Digits(n)|] == '\r'
    ensures ReadNumber(s, p, 0) == Found(n, p + |Digits(n)|)
  {
    var d := Digits(n);
    DigitsSpell(n);
    ReadPrefix(s, p, d, |d|);
    assert d[..|d|] == d;
  }

  /** The automaton's course from one field to the next. */
  function Continue(argv: seq<string>, f: Field, i: nat, g: Option<Progress>): Outcome
    requires i < |argv|
  {
    if g.None? || g.value.t.None? then Rejected
    else match After(f, ArityIn(g.value), g.value.narg, g.value.rnarg)
      case Fail => Rejected
      case Finish => Accepted(g.value.t.value, g.value.keys)
      case Go(next) => Resume(argv, next, i + 1, g.value)
  }

  function Resume(argv: seq<string>, f: Field, i: nat, g: Progress): Outcome
    requires i <= |argv|
  {
    if Offset(argv, i) <= |Format(argv)| then Fields(Format(argv), f, Offset(argv, i), g) else Rejected
  }

  lemma OneField(argv: seq<string>, f: Field, i: nat, g: Progress)
    requires i < |argv| && g.rnarg > 0 && (f == Name ==> argv[i] != "")
    ensures Resume(argv, f, i, g) == Continue(argv, f, i, Take(f, argv[i], Place(argv, i), OneLess(g)))
  {
    hide Digits, Bulks, Bulk, Header, Format, Fields, AtLength, AtLengthEnd, AtBody, AtBodyEnd, Take, After,
         ReadNumber, TypeOf, Value;
    PrintedAt(argv, i);
    FieldOf(Format(argv), f, Offset(argv, i), argv[i], g);
  }

  /** What one printed argument does to the automaton. */
  lemma FieldOf(s: string, f: Field, p: nat, x: string, g: Progress)
    requires Printed(s, p, x) && g.rnarg > 0 && (f == Name ==> x != "")
    ensures Fields(s, f, p, g)
         == var a := p + 1 + |Digits(|x|)| + 2;
            var g' := Take(f, x, KeyPos(a, a + |x|), OneLess(g));
            if g'.None? || g'.value.t.None? then Rejected
            else match After(f, ArityIn(g'.value), g'.value.narg, g'.value.rnarg)
              case Fail => Rejected
              case Finish => Accepted(g'.value.t.value, g'.value.keys)
              case Go(next) => Fields(s, next, p + |Bulk(x)|, g'.value)
  {
    hide Digits, Bulk, Fields, AtLength, AtLengthEnd, AtBody, AtBodyEnd, Take, After, ReadNumber, TypeOf, Value;
    InPlaceText(s, p, x);
    DigitsSpell(|x|);
    var d := |Digits(|x|)|;
    ReadDigits(s, p + 1, |x|);
    FieldSteps(s, f, p, |x|, d, g);
  }

  lemma FieldSteps(s: string, f: Field, p: nat, len: nat, d: nat, g: Progress)
    requires 0 < d && p + 1 + d + 2 + len + 1 < |s| && g.rnarg > 0 && (f == Name ==> len > 0)
    requires s[p] == '$' && ReadNumber(s, p + 1, 0) == Found(len, p + 1 + d)
    requires s[p + 1 + d + 1] == '\n' && s[p + 1 + d + 2 + len] == '\r' && s[p + 1 + d + 2 + len + 1] == '\n'
    ensures Fields(s, f, p, g)
         == var a := p + 1 + d + 2;
            var g' := Take(f, s[a..a + len], KeyPos(a, a + len), OneLess(g));
            if g'.None? || g'.value.t.None? then Rejected
            else match After(f, ArityIn(g'.value), g'.value.narg, g'.value.rnarg)
              case Fail => Rejected
              case Finish => Accepted(g'.value.t.value, g'.value.keys)
              case Go(next) => Fields(s, next, a + len + 2, g'.value)
  {
    hide ReadNumber, Take, After, Digits, Value;
    LengthStep(s, f, p, None, 0, g);
    assert AtLength(s, f, p + 1, Found(len, p + 1 + d), g) == AtLengthEnd(s, f, p + 1 + d + 1, len, OneLess(g));
    EndSteps(s, f, p + 1 + d + 1, len, OneLess(g));
    EndSteps(s, f, p + 1 + d + 2, len, OneLess(g));
    var g' := Take(f, s[p + 1 + d + 2..p + 1 + d + 2 + len], KeyPos(p + 1 + d + 2, p + 1 + d + 2 + len), OneLess(g));
    if g'.Some? { EndSteps(s, f, p + 1 + d + 2 + len + 1, len, g'.value); }
  }

  // ---- every argument vector ----

  /** The arguments, the name included, that a command of this arity may have. */
  predicate Legal(a: Arity, argv: seq<string>) {
    match a
    case Keyless => |argv| >= 1
    case Fixed(n) => |argv| == n + 2
    case Variadic => |argv| >= 2
    case Keys => |argv| >= 2
    case Pairs => |argv| == 2 || (|argv| >= 3 && |argv| % 2 == 1)
    case Script => |argv| >= 4 && CountsKeys(argv[2])
  }

  function PlacesFrom(argv: seq<string>, i: nat, step: nat): seq<KeyPos>
    requires step > 0
    decreases |argv| - i
  {
    if i >= |argv| then [] else [Place(argv, i)] + PlacesFrom(argv, i + step, step)
  }

  /** Where the key arguments of a legal command are. */
  function KeyPlaces(a: Arity, argv: seq<string>): seq<KeyPos>
    requires Legal(a, argv)
  {
    match a
    case Keyless => []
    case Keys => PlacesFrom(argv, 1, 1)
    case Pairs => PlacesFrom(argv, 1, 2)
    case Script => [Place(argv, 3)]
    case _ => [Place(argv, 1)]
  }

  /** What parsing a printed command comes to. */
  function Expected(argv: seq<string>): Outcome {
    if argv == [] || TypeOf(argv[0]).None? then Rejected
    else
      var t := TypeOf(argv[0]).value;
      if Legal(ArityOf(t), argv) then Accepted(t, KeyPlaces(ArityOf(t), argv))
      else if |argv| == 1 then RanOut([])
      else Rejected
  }

  function Midway(argv: seq<string>, i: nat, t: CmdType, keys: seq<KeyPos>): Progress
    requires i <= |argv|
  {
    Progress(|argv|, |argv| - i, Some(t), keys)
  }

  function WithKey(argv: seq<string>, f: Field, i: nat, keys: seq<KeyPos>): seq<KeyPos>
    requires i < |argv|
  {
    if f == Key then keys + [Place(argv, i)] else keys
  }

  /** A field of a command whose type is known, read midway. */
  lemma MidField(argv: seq<string>, f: Field, i: nat, t: CmdType, keys: seq<KeyPos>)
    requires 0 < i < |argv| && f != Name && (f == Arg2 && ArityOf(t).Script? ==> CountsKeys(argv[i]))
    ensures Resume(argv, f, i, Midway(argv, i, t, keys))
         == match After(f, ArityOf(t), |argv|, |argv| - i - 1)
            case Fail => Rejected
            case Finish => Accepted(t, WithKey(argv, f, i, keys))
            case Go(next) => Resume(argv, next, i + 1, Midway(argv, i + 1, t, WithKey(argv, f, i, keys)))
  {
    hide Resume, After, Place, ArityOf, CountsKeys;
    OneField(argv, f, i, Midway(argv, i, t, keys));
  }

  lemma BadKeyCount(argv: seq<string>, t: CmdType)
    requires |argv| > 2 && ArityOf(t).Script? && !CountsKeys(argv[2])
    ensures Resume(argv, Arg2, 2, Midway(argv, 2, t, [])) == Rejected
  {
    hide Resume, After, Place, ArityOf, CountsKeys;
    OneField(argv, Arg2, 2, Midway(argv, 2, t, []));
  }

  lemma {:induction false} TailOfArguments(argv: seq<string>, i: nat, t: CmdType, keys: seq<KeyPos>)
    requires 0 < i < |argv| && (ArityOf(t).Variadic? || ArityOf(t).Script?)
    ensures Resume(argv, ArgN, i, Midway(argv, i, t, keys)) == Accepted(t, keys)
    decreases |argv| - i
  {
    hide Resume, Place, ArityOf;
    MidField(argv, ArgN, i, t, keys);
    if i + 1 < |argv| { TailOfArguments(argv, i + 1, t, keys); }
  }

  lemma {:induction false} TailOfKeys(argv: seq<string>, i: nat, t: CmdType, keys: seq<KeyPos>)
    requires 0 < i < |argv| && ArityOf(t).Keys?
    ensures Resume(argv, Key, i, Midway(argv, i, t, keys)) == Accepted(t, keys + PlacesFrom(argv, i, 1))
    decreases |argv| - i
  {
    hide Resume, Place, ArityOf;
    MidField(argv, Key, i, t, keys);
    if i + 1 < |argv| {
      TailOfKeys(argv, i + 1, t, keys + [Place(argv, i)]);
      assert keys + [Place(argv, i)] + PlacesFrom(argv, i + 1, 1) == keys + PlacesFrom(argv, i, 1);
    } else {
      assert PlacesFrom(argv, i + 1, 1) == [];
    }
  }

  lemma {:induction false} TailOfPairs(argv: seq<string>, i: nat, t: CmdType, keys: seq<KeyPos>)
    requires 0 < i < |argv| - 1 && |argv| % 2 == 1 && i % 2 == 1 && ArityOf(t).Pairs?
    ensures Resume(argv, Key, i, Midway(argv, i, t, keys)) == Accepted(t, keys + PlacesFrom(argv, i, 2))
    decreases |argv| - i
  {
    hide Resume, Place, ArityOf;
    MidField(argv, Key, i, t, keys);
    MidField(argv, Arg1, i + 1, t, keys + [Place(argv, i)]);
    if i + 2 < |argv| {
      TailOfPairs(argv, i + 2, t, keys + [Place(argv, i)]);
      assert keys + [Place(argv, i)] + PlacesFrom(argv, i + 2, 2) == keys + PlacesFrom(argv, i, 2);
    } else {
      assert PlacesFrom(argv, i + 2, 2) == [];
    }
  }

  /** Commands of one key. */
  lemma {:induction false} FixedArity(argv: seq<string>, t: CmdType)
    requires |argv| > 1 && ArityOf(t).Fixed? && ArityOf(t).args <= 3
    ensures Resume(argv, Key, 1, Midway(argv, 1, t, []))
         == if |argv| == ArityOf(t).args + 2 then Accepted(t, [Place(argv, 1)]) else Rejected
  {
    hide Resume, Place, ArityOf;
    MidField(argv, Key, 1, t, []);
    if |argv| == ArityOf(t).args + 2 {
      var keys := [Place(argv, 1)];
      assert [] + keys == keys;
      if |argv| > 2 { MidField(argv, Arg1, 2, t, keys); }
      if |argv| > 3 { MidField(argv, Arg2, 3, t, keys); }
      if |argv| > 4 { MidField(argv, Arg3, 4, t, keys); }
    }
  }

  lemma {:induction false} VariadicArity(argv: seq<string>, t: CmdType)
    requires |argv| > 1 && ArityOf(t).Variadic?
    ensures Resume(argv, Key, 1, Midway(argv, 1, t, [])) == Accepted(t, [Place(argv, 1)])
  {
    hide Resume, Place, ArityOf;
    MidField(argv, Key, 1, t, []);
    var keys := [Place(argv, 1)];
    assert [] + keys == keys;
    if |argv| > 2 { MidField(argv, Arg1, 2, t, keys); }
    if |argv| > 3 { TailOfArguments(argv, 3, t, keys); }
  }

  lemma OnePlace(argv: seq<string>)
    ensures |argv| == 2 ==> PlacesFrom(argv, 1, 2) == [] + [Place(argv, 1)]
  {
    if |argv| == 2 { assert PlacesFrom(argv, 3, 2) == []; }
  }

  lemma {:induction false} PairsArity(argv: seq<string>, t: CmdType)
    requires |argv| > 1 && ArityOf(t).Pairs?
    ensures Resume(argv, Key, 1, Midway(argv, 1, t, []))
         == if Legal(Pairs, argv) then Accepted(t, PlacesFrom(argv, 1, 2)) else Rejected
  {
    hide Resume, Place, ArityOf, PlacesFrom;
    MidField(argv, Key, 1, t, []);
    OnePlace(argv);
    if |argv| % 2 == 1 {
      TailOfPairs(argv, 1, t, []);
      assert [] + PlacesFrom(argv, 1, 2) == PlacesFrom(argv, 1, 2);
    }
  }

  lemma {:induction false} ScriptArity(argv: seq<string>, t: CmdType)
    requires |argv| > 1 && ArityOf(t).Script?
    ensures Resume(argv, Arg1, 1, Midway(argv, 1, t, []))
         == if Legal(Script, argv) then Accepted(t, [Place(argv, 3)]) else Rejected
  {
    hide Resume, Place, ArityOf, CountsKeys;
    MidField(argv, Arg1, 1, t, []);
    if |argv| >= 4 {
      if CountsKeys(argv[2]) {
        MidField(argv, Arg2, 2, t, []);
        MidField(argv, Key, 3, t, []);
        assert [] + [Place(argv, 3)] == [Place(argv, 3)];
        if |argv| > 4 { TailOfArguments(argv, 4, t, [Place(argv, 3)]); }
      } else {
        BadKeyCount(argv, t);
      }
    }
  }

  lemma ArgsBound(t: CmdType)
    ensures ArityOf(t).Fixed? ==> ArityOf(t).args <= 3
  {
  }

  /** After the name. */
  lemma AfterName(argv: seq<string>, t: CmdType)
    requires argv != [] && !ArityOf(t).Keyless?
    ensures Resume(argv, if ArityOf(t).Script? then Arg1 else Key, 1, Midway(argv, 1, t, []))
         == if Legal(ArityOf(t), argv) then Accepted(t, KeyPlaces(ArityOf(t), argv))
            else if |argv| == 1 then RanOut([]) else Rejected
  {
    hide Resume, Place, ArityOf, PlacesFrom, CountsKeys;
    ArgsBound(t);
    if |argv| == 1 {
      NothingLeft(argv, if ArityOf(t).Script? then Arg1 else Key, Midway(argv, 1, t, []));
    } else {
      match ArityOf(t)
      case Fixed(_) => FixedArity(argv, t);
      case Variadic => VariadicArity(argv, t);
      case Keys =>
        TailOfKeys(argv, 1, t, []);
        assert [] + PlacesFrom(argv, 1, 1) == PlacesFrom(argv, 1, 1);
      case Pairs => PairsArity(argv, t);
      case Script => ScriptArity(argv, t);
    }
  }

  lemma NothingLeft(argv: seq<string>, f: Field, g: Progress)
    ensures Resume(argv, f, |argv|, g) == RanOut(g.keys)
  {
    OffsetEnd(argv);
  }

  /** The header of a printed command leads to the name with all arguments to come. */
  lemma HeaderOf(argv: seq<string>)
    ensures Parse(Format(argv))
         == if argv == [] then Rejected else Resume(argv, Name, 0, Progress(|argv|, |argv|, None, []))
  {
    hide Digits, Bulks, ReadNumber, Fields;
    var s, d := Format(argv), Digits(|argv|);
    assert s[0] == '*' && s[1..1 + |d|] == d && s[1 + |d|] == '\r' && s[1 + |d| + 1] == '\n';
    DigitsSpell(|argv|);
    ReadDigits(s, 1, |argv|);
    NoBulks(argv);
    if argv != [] { CountEndStep(s, 1 + |d| + 1, |argv|); }
  }

  lemma EmptyName(argv: seq<string>, g: Progress)
    requires argv != [] && argv[0] == "" && g.rnarg > 0
    ensures Resume(argv, Name, 0, g) == Rejected && TypeOf("") == None
  {
    hide Digits, Bulks, ReadNumber, Format;
    PrintedAt(argv, 0);
    var s, p := Format(argv), Offset(argv, 0);
    InPlaceText(s, p, "");
    ReadDigits(s, p + 1, 0);
    LengthStep(s, Name, p, None, 0, g);
  }

  /**
   Every printed argument vector, parsed: accepted with exactly its key arguments if the name is known
   and the arity legal; a known name alone runs out of bytes, which the caller sees as a success
   without keys; everything else is rejected.
   */
  lemma {:induction false} ParseFormatted(argv: seq<string>)
    ensures Parse(Format(argv)) == Expected(argv)
  {
    hide Resume, Parse, Format, TypeOf, ArityOf, Legal, KeyPlaces, Place;
    HeaderOf(argv);
    if argv != [] {
      var g := Progress(|argv|, |argv|, None, []);
      if argv[0] == "" {
        EmptyName(argv, g);
      } else {
        OneField(argv, Name, 0, g);
        if TypeOf(argv[0]).Some? {
          var t := TypeOf(argv[0]).value;
          if ArityOf(t).Keyless? { KeylessLegal(argv, ArityOf(t)); } else { AfterName(argv, t); }
        }
      }
    }
  }

  lemma KeylessLegal(argv: seq<string>, a: Arity)
    requires argv != [] && a.Keyless?
    ensures Legal(a, argv) && KeyPlaces(a, argv) == []
  {
  }

  /** Without a key the printed command still parses, as far as the caller can tell: GET alone is no error. */
  lemma {:induction false} NameAloneRunsOut()
    ensures Parse(Format(["get"])) == RanOut([])
  {
    assert LowerAll("get") == "get";
    ParseFormatted(["get"]);
  }

  // ---- the bytes of the keys ----

  function TextAt(s: string, k: KeyPos): string {
    if k.start <= k.end <= |s| then s[k.start..k.end] else ""
  }

  function TextsAt(s: string, ks: seq<KeyPos>): seq<string> {
    if ks == [] then [] else [TextAt(s, ks[0])] + TextsAt(s, ks[1..])
  }

  /** Every step-th argument from the i-th on. */
  function Every(argv: seq<string>, i: nat, step: nat): seq<string>
    requires step > 0
    decreases |argv| - i
  {
    if i >= |argv| then [] else [argv[i]] + Every(argv, i + step, step)
  }

  lemma TextsCons(s: string, k: KeyPos, ks: seq<KeyPos>)
    ensures TextsAt(s, [k] + ks) == [TextAt(s, k)] + TextsAt(s, ks)
  {
    assert ([k] + ks)[1..] == ks;
  }

  lemma NoTexts(s: string)
    ensures TextsAt(s, []) == []
  {
  }

  lemma PlaceText(argv: seq<string>, i: nat)
    requires i < |argv|
    ensures TextAt(Format(argv), Place(argv, i)) == argv[i]
  {
    hide Format, Place;
    PlaceHolds(argv, i);
  }

  lemma {:induction false} PlacesHold(argv: seq<string>, i: nat, step: nat)
    requires step > 0
    ensures TextsAt(Format(argv), PlacesFrom(argv, i, step)) == Every(argv, i, step)
    decreases |argv| - i
  {
    hide Format, Place, TextAt, TextsAt;
    if i < |argv| {
      PlaceText(argv, i);
      PlacesHold(argv, i + step, step);
      TextsCons(Format(argv), Place(argv, i), PlacesFrom(argv, i + step, step));
    } else {
      NoTexts(Format(argv));
    }
  }

  /** The key arguments by class. */
  function KeyArguments(a: Arity, argv: seq<string>): seq<string>
    requires Legal(a, argv)
  {
    match a
    case Keyless => []
    case Keys => argv[1..]
    case Pairs => Every(argv, 1, 2)
    case Script => [argv[3]]
    case _ => [argv[1]]
  }

  lemma {:induction false} EveryOne(argv: seq<string>, i: nat)
    requires i <= |argv|
    ensures Every(argv, i, 1) == argv[i..]
    decreases |argv| - i
  {
    if i < |argv| { EveryOne(argv, i + 1); }
  }

  /** The keys the automaton extracts are, byte for byte, the key arguments of the class. */
  lemma {:induction false} KeysExtracted(argv: seq<string>)
    ensures Parse(Format(argv)).Accepted? <==>
            argv != [] && TypeOf(argv[0]).Some? && Legal(ArityOf(TypeOf(argv[0]).value), argv)
    ensures Parse(Format(argv)).Accepted? ==>
              && Parse(Format(argv)).t == TypeOf(argv[0]).value
              && TextsAt(Format(argv), Parse(Format(argv)).keys) == KeyArguments(ArityOf(TypeOf(argv[0]).value), argv)
  {
    hide Format, TypeOf, ArityOf, Place, Parse, CountsKeys;
    ParseFormatted(argv);
    if Expected(argv).Accepted? {
      var a := ArityOf(TypeOf(argv[0]).value);
      PlacesHold(argv, 1, 1);
      PlacesHold(argv, 1, 2);
      EveryOne(argv, 1);
      if a.Script? {
        PlaceHolds(argv, 3);
        OneText(Format(argv), Place(argv, 3));
      } else if !a.Keyless? {
        PlaceHolds(argv, 1);
        OneText(Format(argv), Place(argv, 1));
      }
    }
  }

  lemma OneText(s: string, k: KeyPos)
    ensures TextsAt(s, [k]) == [TextAt(s, k)]
  {
  }

  // ---- some commands by name ----

  lemma GetIs(name: string)
    ensures LowerAll(name) == "get" ==> TypeOf(name).Some? && ArityOf(TypeOf(name).value) == Fixed(0)
  {
    hide LowerAll;
  }

  lemma TtlIs(name: string)
    ensures LowerAll(name) == "ttl" ==> TypeOf(name).Some? && ArityOf(TypeOf(name).value) == Fixed(0)
  {
    hide LowerAll;
  }

  lemma IncrIs(name: string)
    ensures LowerAll(name) == "incr" ==> TypeOf(name).Some? && ArityOf(TypeOf(name).value) == Fixed(0)
  {
    hide LowerAll;
  }

  lemma ExpireIs(name: string)
    ensures LowerAll(name) == "expire" ==> TypeOf(name).Some? && ArityOf(TypeOf(name).value) == Fixed(1)
  {
    hide LowerAll;
  }

  lemma HgetIs(name: string)
    ensures LowerAll(name) == "hget" ==> TypeOf(name).Some? && ArityOf(TypeOf(name).value) == Fixed(1)
  {
    hide LowerAll;
  }

  lemma HsetIs(name: string)
    ensures LowerAll(name) == "hset" ==> TypeOf(name).Some? && ArityOf(TypeOf(name).value) == Fixed(2)
  {
    hide LowerAll;
  }

  lemma SetIs(name: string)
    ensures LowerAll(name) == "set" ==> TypeOf(name).Some? && ArityOf(TypeOf(name).value) == Variadic
  {
    hide LowerAll;
  }

  lemma LpushIs(name: string)
    ensures LowerAll(name) == "lpush" ==> TypeOf(name).Some? && ArityOf(TypeOf(name).value) == Variadic
  {
    hide LowerAll;
  }

  /** A command accepted exactly when p holds, with this one key. */
  predicate AcceptedIf(argv: seq<string>, p: bool)
    requires argv != []
  {
    var o := Parse(Format(argv));
    (o.Accepted? <==> p) && (p && |argv| >= 2 ==> TextsAt(Format(argv), o.keys) == [argv[1]])
  }

  /** Commands of one key, in any letter case: how many arguments they are accepted with, and which is the key. */
  lemma {:induction false} CommonCommands(argv: seq<string>)
    requires argv != []
    ensures var name := LowerAll(argv[0]);
            && (name == "get" || name == "ttl" || name == "incr" ==> AcceptedIf(argv, |argv| == 2))
            && (name == "expire" || name == "hget" ==> AcceptedIf(argv, |argv| == 3))
            && (name == "hset" ==> AcceptedIf(argv, |argv| == 4))
            && (name == "set" || name == "lpush" ==> AcceptedIf(argv, |argv| >= 2))
  {
    hide Parse, Format, TypeOf, ArityOf, LowerAll, TextsAt;
    GetIs(argv[0]);
    TtlIs(argv[0]);
    IncrIs(argv[0]);
    ExpireIs(argv[0]);
    HgetIs(argv[0]);
    HsetIs(argv[0]);
    SetIs(argv[0]);
    LpushIs(argv[0]);
    KeysExtracted(argv);
  }

  lemma SplitIs(name: string, t: CmdType)
    requires t in {Mget, Del, Mset}
    ensures LowerAll(name) == NameOf(t) ==>
              TypeOf(name).Some? && ArityOf(TypeOf(name).value) == if t == Mset then Pairs else Keys
  {
    hide LowerAll, TypeOf, NameOf;
    if LowerAll(name) == NameOf(t) { SplitNamesRecognised(name, t); }
  }

  lemma LegalKeys(argv: seq<string>)
    requires argv != []
    ensures Legal(Keys, argv) <==> |argv| >= 2
    ensures Legal(Pairs, argv) <==> |argv| == 2 || (|argv| >= 3 && |argv| % 2 == 1)
    ensures Legal(Keys, argv) ==> KeyArguments(Keys, argv) == argv[1..]
    ensures Legal(Pairs, argv) ==> KeyArguments(Pairs, argv) == Every(argv, 1, 2)
  {
    hide Every;
  }

  /** The commands that are split, in any letter case; MSET takes its keys from every other argument. */
  lemma {:induction false} SplitCommands(argv: seq<string>)
    requires argv != []
    ensures var (name, o, n) := (LowerAll(argv[0]), Parse(Format(argv)), |argv|);
            && (name == "mget" || name == "del" ==>
                  (o.Accepted? <==> n >= 2) && (n >= 2 ==> TextsAt(Format(argv), o.keys) == argv[1..]))
            && (name == "mset" ==>
                  && (o.Accepted? <==> n == 2 || (n >= 3 && n % 2 == 1))
                  && (o.Accepted? ==> TextsAt(Format(argv), o.keys) == Every(argv, 1, 2)))
  {
    hide Parse, Format, TypeOf, ArityOf, LowerAll, TextsAt, Every, Legal, KeyArguments;
    LegalKeys(argv);
    SplitIs(argv[0], Mget);
    SplitIs(argv[0], Del);
    SplitIs(argv[0], Mset);
    KeysExtracted(argv);
  }
}
