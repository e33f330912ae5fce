/** The parsers and combinators of siscom.js as data, and `Run`, what running
    one on a cursor does: the value it returns or the error it throws, and where
    it leaves the cursor. A parse error that the source throws is an `Error`
    reply; anything else thrown is a `Fault`. */
module Parsing {
  import opened Js
  import opened Cursor
  import opened Errors

  /** The upper bound of a repetition: a count, or `Infinity`. */
  datatype Bound = Finite(n: nat) | Infinity

  /** What `seq` does with the results: the `arguments[n]` projection behind
      `get`, `left` and `right`, or a callback of the grammar's own, which also
      receives the cursor saved before the sequence as `this`. */
  datatype Callback = Pick(n: int) | Combine(f: (Snapshot, seq<Value>) -> Value)

  datatype Parser =
    | Fail(message: string, labels: seq<string>, unexpected: Value)      // Parsers.error
    | Empty                                                               // Parsers.empty
    | Literal(text: string)                                               // Parsers.string
    | Satisfy(name: string, cond: string -> bool)                         // Parsers.satisfy
    | AnyChar                                                             // Parsers.any
    | NotChar(chr: char)                                                  // Parsers.notChar
    | Named(name: string, inner: Parser)                                  // Combinators.named
    | Rule(name: string)                                                  // Combinators.lazy, wrap
    | Count(min: nat, max: Bound, inner: Parser, keep: bool)              // count, skipCount
    | Skip(inner: Parser)                                                 // Combinators.skip
    | Option(fallback: Value, inner: Parser)                              // Combinators.option
    | Choice(alternatives: seq<Parser>)                                   // Combinators.choice
    | Sequence(steps: seq<Parser>)                                        // Combinators.sequence
    | Seq(steps: seq<Parser>, callback: Callback)                         // Combinators.seq
    | SepBy1(item: Parser, sep: Parser)                                   // Combinators.sepBy1
    | ManyTill(item: Parser, terminator: Parser)                          // Combinators.manyTill
    | NotFollowedBy(inner: Parser)                                        // Combinators.notFollowedBy

  /** The rules a `lazy` or `wrap` thunk can name; the thunk is the lookup. */
  type Grammar = map<string, Parser>

  datatype Reply = Ok(value: Value) | Error(err: ParseError) | Fault(fault: Fault)

  /** What a run returns or throws, and the cursor it leaves behind. */
  datatype Outcome = Outcome(reply: Reply, state: Snapshot)

  // ----- builders: the combinators the source defines in terms of others -----

  /** `Parsers.expected(labels, unexpected)` */
  function Expected(labels: seq<string>, unexpected: Value): Parser { Fail("", labels, unexpected) }

  function Many(p: Parser): Parser { Count(0, Infinity, p, true) }
  function Some(p: Parser): Parser { Count(1, Infinity, p, true) }
  function Min(n: nat, p: Parser): Parser { Count(n, Infinity, p, true) }
  function Max(n: nat, p: Parser): Parser { Count(0, Finite(n), p, true) }
  function Times(n: nat, p: Parser): Parser { Count(n, Finite(n), p, true) }

  function SkipCount(min: nat, max: Bound, p: Parser): Parser { Count(min, max, p, false) }
  function SkipMany(p: Parser): Parser { SkipCount(0, Infinity, p) }
  function SkipSome(p: Parser): Parser { SkipCount(1, Infinity, p) }
  function SkipMin(n: nat, p: Parser): Parser { SkipCount(n, Infinity, p) }
  function SkipMax(n: nat, p: Parser): Parser { SkipCount(0, Finite(n), p) }
  function SkipTimes(n: nat, p: Parser): Parser { SkipCount(n, Finite(n), p) }

  /** `Parsers.notChar(chr)`: building it from a string of any other length than one throws at once. */
  function NotCharOf(chr: string): (r: Result<Parser>)
    ensures r.Success? <==> |chr| == 1
    ensures r.Success? ==> r.value == NotChar(chr[0])
    ensures r.Failure? ==> r.fault.Thrown?
  {
    if |chr| != 1 then Failure(Thrown("Parsers.notChar requires a character (not a string)"))
    else Success(NotChar(chr[0]))
  }

  function Optional(p: Parser): Parser { Option(Null, p) }

  /** `get(n, ...)`: the `n`-th result, undefined when there is none. */
  function Get(n: int, ps: seq<Parser>): (r: Parser)
    ensures r.Seq? && r.steps == ps
    ensures forall saved, results :: 0 <= n < |results| ==> Project(r.callback, saved, results) == results[n]
    ensures forall saved, results :: !(0 <= n < |results|) ==> Project(r.callback, saved, results) == Undefined
  {
    Seq(ps, Pick(n))
  }

  /** `left(...)`: the first result. */
  function Left(ps: seq<Parser>): (r: Parser)
    ensures r.Seq? && r.steps == ps
    ensures forall saved, results :: |results| > 0 ==> Project(r.callback, saved, results) == results[0]
  {
    Seq(ps, Pick(0))
  }

  /** The callback reads `parsers.length - 2` of an array that also holds the
      callback itself, so it picks the last result. */
  function Right(ps: seq<Parser>): (r: Parser)
    ensures r.Seq? && r.steps == ps
    ensures forall saved, results :: |results| == |ps| > 0 ==> Project(r.callback, saved, results) == results[|ps| - 1]
  {
    Seq(ps, Pick(|ps| + 1 - 2))
  }

  function Between(open: Parser, p: Parser, close: Parser): Parser { Get(1, [open, p, close]) }

  /** `sepBy`, as `option([], sepBy1(parser, sep))` evidently means it. */
  function SepBy(p: Parser, sep: Parser): (r: Parser)
    ensures r.Option? && r.fallback == Items([]) && r.inner == SepBy1(p, sep)
  {
    Option(Items([]), SepBy1(p, sep))
  }

  function EndBy1(p: Parser, end: Parser): Parser { Some(Left([p, end])) }
  function EndBy(p: Parser, end: Parser): Parser { Many(Left([p, end])) }
  function SepEndBy1(p: Parser, sepEnd: Parser): Parser { Left([SepBy1(p, sepEnd), Optional(sepEnd)]) }
  /** `sepEndBy`, with `sepBy` where the source calls `sepEndBy` itself. */
  function SepEndBy(p: Parser, sepEnd: Parser): (r: Parser)
    ensures r.Seq? && r.steps == [SepBy(p, sepEnd), Optional(sepEnd)] && r.callback == Pick(0)
  {
    Left([SepBy(p, sepEnd), Optional(sepEnd)])
  }

  function Lazy(name: string): Parser { Rule(name) }
  function Wrap(name: string): Parser { Rule(name) }

  // ----- character classes -----

  /** `lo <= c && c <= hi` on JavaScript strings. */
  predicate InRange(c: string, lo: char, hi: char)
  {
    LexLeq([lo], c) && LexLeq(c, [hi])
  }

  predicate IsDigit(c: string) { InRange(c, '0', '9') }
  predicate IsHexDigit(c: string) { InRange(c, '0', '9') || InRange(c, 'a', 'f') || InRange(c, 'A', 'F') }
  predicate IsOctDigit(c: string) { InRange(c, '0', '7') }
  predicate IsLower(c: string) { InRange(c, 'a', 'z') }
  predicate IsUpper(c: string) { InRange(c, 'A', 'Z') }
  predicate IsLetter(c: string) { InRange(c, 'a', 'z') || InRange(c, 'A', 'Z') }
  predicate IsAlphaNum(c: string) { InRange(c, 'a', 'z') || InRange(c, 'A', 'Z') || InRange(c, '0', '9') }

  function Digit(): Parser { Satisfy("digit", IsDigit) }
  function HexDigit(): Parser { Satisfy("hexDigit", IsHexDigit) }
  function OctDigit(): Parser { Satisfy("octDigit", IsOctDigit) }
  function Lower(): Parser { Satisfy("lower", IsLower) }
  function Upper(): Parser { Satisfy("upper", IsUpper) }
  function Letter(): Parser { Satisfy("letter", IsLetter) }
  function AlphaNum(): Parser { Satisfy("alphaNum", IsAlphaNum) }
  function Newline(): Parser { Literal("\n") }
  function Tab(): Parser { Literal("\t") }

  /** On what the cursor can show (one character or nothing) the range test is a plain character range. */
  lemma InRangeChar(c: string, lo: char, hi: char)
    requires |c| <= 1
    ensures InRange(c, lo, hi) <==> |c| == 1 && lo <= c[0] <= hi
  {
    if |c| == 1 {
      assert LexLeq([lo][1..], c[1..]) && LexLeq(c[1..], [hi][1..]);
      assert LexLeq([lo], c) <==> lo <= c[0];
      assert LexLeq(c, [hi]) <==> c[0] <= hi;
    }
  }

  // ----- primitives -----

  /** The error a primitive throws at the cursor. */
  function ErrorAt(s: Snapshot, message: string, labels: seq<string>, unexpected: Value): ParseError
  {
    ParseError(s.source, s.index, s.filename, s.line, s.column, message, labels, unexpected)
  }

  /** Every character of `str` agrees with what the cursor shows at that distance. */
  predicate MatchesAt(s: Snapshot, str: string)
  {
    forall i :: 0 <= i < |str| ==> Peek(s, i) == [str[i]]
  }

  /** `string(str)`: a failure consumes nothing and stands at the cursor; a success
      consumes exactly the text it returns. So do the other primitives below. */
  function LiteralAt(s: Snapshot, str: string): (o: Outcome)
    ensures !o.reply.Fault?
    ensures o.reply.Error? ==> o.state == s && o.reply.err.index == s.index
    ensures o.reply.Ok? ==> o.reply.value.Text? && o.state == Advance(s, o.reply.value.s)
  {
    if MatchesAt(s, str) then Outcome(Ok(Text(str)), Advance(s, str))
    else Outcome(Error(ErrorAt(s, "", [Quote(str)], Undefined)), s)
  }

  /** `satisfy(name, cond)` */
  function SatisfyAt(s: Snapshot, name: string, cond: string -> bool): (o: Outcome)
    ensures !o.reply.Fault?
    ensures o.reply.Error? ==> o.state == s && o.reply.err.index == s.index
    ensures o.reply.Ok? ==> o.reply.value.Text? && o.state == Advance(s, o.reply.value.s)
  {
    var c := Peek(s, 0);
    if cond(c) then Outcome(Ok(Text(c)), Advance(s, c))
    else Outcome(Error(ErrorAt(s, "", ["<" + name + ">"], Undefined)), s)
  }

  /** `anyChar` */
  function AnyCharAt(s: Snapshot): (o: Outcome)
    ensures !o.reply.Fault?
    ensures o.reply.Error? ==> o.state == s && o.reply.err.index == s.index
    ensures o.reply.Ok? ==> o.reply.value.Text? && o.state == Advance(s, o.reply.value.s)
  {
    var c := Peek(s, 0);
    if c != "" then Outcome(Ok(Text(c)), Advance(s, c))
    else Outcome(Error(ErrorAt(s, "", ["any character"], Text("end of file"))), s)
  }

  /** `notChar(chr)` */
  function NotCharAt(s: Snapshot, chr: char): (o: Outcome)
    ensures !o.reply.Fault?
    ensures o.reply.Error? ==> o.state == s && o.reply.err.index == s.index
    ensures o.reply.Ok? ==> o.reply.value.Text? && o.state == Advance(s, o.reply.value.s)
  {
    var c := Peek(s, 0);
    if c == [chr] then Outcome(Error(ErrorAt(s, "", [], Text(Quote([chr])))), s)
    else if c == "" then Outcome(Error(ErrorAt(s, "", ["not " + Quote([chr])], Text("end of file"))), s)
    else Outcome(Ok(Text(c)), Advance(s, c))
  }

  /** `Parsers.empty`: an error at no position. */
  function EmptyError(s: Snapshot): (e: ParseError)
    ensures e.index == -1 && e.filename == s.filename && e.expecteds == []
    ensures Message(e) == "it is an empty error." && ShowLine(e) == Success(NotFound)
  {
    ParseError(s.source, -1, s.filename, -1, -1, "it is an empty error.", [], Null)
  }

  /** `callback.apply(save, results)` */
  function Project(cb: Callback, saved: Snapshot, results: seq<Value>): Value
  {
    match cb
    case Pick(n) => if 0 <= n < |results| then results[n] else Undefined
    case Combine(f) => f(saved, results)
  }

  function Collect(keep: bool, acc: seq<Value>): Value
  {
    if keep then Items(acc) else Undefined
  }

  predicate Below(i: nat, max: Bound)
  {
    match max
    case Finite(n) => i < n
    case Infinity => true
  }

  // ----- the run -----

  /** Input left to consume: what every repetition that goes on must shrink. */
  function Rem(s: Snapshot): nat
  {
    if s.index <= |s.source| then |s.source| - s.index else 0
  }

  function Budget(max: Bound, i: nat): nat
  {
    match max
    case Finite(n) => if i < n then n - i else 0
    case Infinity => 0
  }

  /** A run never rewinds the cursor past its start, never changes the text or
      the file, and never moves past the end of the text. */
  predicate Forward(s: Snapshot, t: Snapshot)
  {
    && t.source == s.source
    && t.filename == s.filename
    && s.index <= t.index
    && (s.index < t.index ==> t.index <= |s.source|)
  }

  /** Running `p` on a cursor at `s`. `fuel` bounds how many rule references may
      be followed one inside another. */
  function Run(g: Grammar, p: Parser, s: Snapshot, fuel: nat): (o: Outcome)
    ensures Forward(s, o.state)
    decreases fuel, p, 1, 0, 0
  {
    match p
    case Fail(m, labels, u) => Outcome(Error(ErrorAt(s, m, labels, u)), s)
    case Empty => Outcome(Error(EmptyError(s)), s)
    case Literal(str) => LiteralAt(s, str)
    case Satisfy(name, cond) => SatisfyAt(s, name, cond)
    case AnyChar => AnyCharAt(s)
    case NotChar(chr) => NotCharAt(s, chr)
    case Named(name, q) =>
      var o := Run(g, q, s, fuel);
      if o.reply.Error? then Outcome(Error(ErrorAt(o.state, o.reply.err.message, [name], o.reply.err.unexpected)), o.state)
      else o
    case Rule(name) =>
      if name !in g then Outcome(Fault(ReferenceError(name)), s)
      else if fuel == 0 then Outcome(Fault(OutOfFuel), s)
      else Run(g, g[name], s, fuel - 1)
    case Count(_, _, _, _) => CountLoop(g, p, fuel, 0, [], s)
    case Skip(q) =>
      var o := Run(g, q, s, fuel);
      if o.reply.Ok? then Outcome(Ok(Undefined), o.state) else o
    case Option(d, q) =>
      var o := Run(g, q, s, fuel);
      if o.reply.Error? then Outcome(Ok(d), s) else o
    case Choice(_) => ChoiceLoop(g, p, fuel, 0, Nothing, s)
    case Sequence(_) => SequenceLoop(g, p, fuel, 0, [], s)
    case Seq(_, cb) =>
      var o := SequenceLoop(g, p, fuel, 0, [], s);
      if o.reply.Ok? then Outcome(Ok(Project(cb, s, o.reply.value.vs)), o.state) else o
    case SepBy1(q, _) =>
      var o := Run(g, q, s, fuel);
      if o.reply.Ok? then SepByLoop(g, p, fuel, [o.reply.value], o.state) else o
    case ManyTill(_, _) => ManyTillLoop(g, p, fuel, [], s)
    case NotFollowedBy(q) =>
      var o := Run(g, q, s, fuel);
      match o.reply
      case Ok(v) => Outcome(Error(ErrorAt(s, "", [], Stringify(v))), s)
      case Error(_) => Outcome(Ok(Undefined), s)
      case Fault(_) => o
  }

  /** The loop of `count`/`skipCount` from attempt `i` on, with `acc` collected
      and the cursor at `s`, which is also the last saved cursor. */
  function CountLoop(g: Grammar, p: Parser, fuel: nat, i: nat, acc: seq<Value>, s: Snapshot): (o: Outcome)
    requires p.Count?
    ensures Forward(s, o.state)
    decreases fuel, p, 0, Rem(s), Budget(p.max, i)
  {
    if !Below(i, p.max) then Outcome(Ok(Collect(p.keep, acc)), s)
    else
      var o := Run(g, p.inner, s, fuel);
      match o.reply
      case Ok(v) =>
        if o.state.index == s.index && p.max.Infinity? then Outcome(Fault(Loops), o.state)
        else CountLoop(g, p, fuel, i + 1, acc + [v], o.state)
      case Error(_) => if i < p.min then o else Outcome(Ok(Collect(p.keep, acc)), s)
      case Fault(_) => o
  }

  /** The loop of `choice` from alternative `i` on, with the errors so far merged into `err`. */
  function ChoiceLoop(g: Grammar, p: Parser, fuel: nat, i: nat, err: Maybe<ParseError>, s: Snapshot): (o: Outcome)
    requires p.Choice? && i <= |p.alternatives|
    ensures Forward(s, o.state)
    decreases fuel, p, 0, |p.alternatives| - i, 0
  {
    if i == |p.alternatives| then
      match err
      case Nothing => Outcome(Fault(ThrownNull), s)
      case Just(e) => Outcome(Error(e), s)
    else
      var o := Run(g, p.alternatives[i], s, fuel);
      match o.reply
      case Error(e) =>
        (match (if err.Nothing? then Success(e) else Merge(err.value, e))
         case Failure(f) => Outcome(Fault(f), o.state)
         case Success(m) => ChoiceLoop(g, p, fuel, i + 1, Just(m), o.state))
      case _ => o
  }

  /** The loop of `sequence` from step `i` on, with the results so far in `acc`. */
  function SequenceLoop(g: Grammar, p: Parser, fuel: nat, i: nat, acc: seq<Value>, s: Snapshot): (o: Outcome)
    requires (p.Sequence? || p.Seq?) && i <= |p.steps|
    ensures Forward(s, o.state)
    ensures o.reply.Ok? ==> o.reply.value.Items? && |o.reply.value.vs| == |acc| + |p.steps| - i
    decreases fuel, p, 0, |p.steps| - i, 0
  {
    if i == |p.steps| then Outcome(Ok(Items(acc)), s)
    else
      var o := Run(g, p.steps[i], s, fuel);
      if o.reply.Ok? then SequenceLoop(g, p, fuel, i + 1, acc + [o.reply.value], o.state) else o
  }

  /** The loop of `sepBy1` after its first item: a separator and an item, again and
      again, until either fails; then the cursor goes back to before that separator. */
  function SepByLoop(g: Grammar, p: Parser, fuel: nat, acc: seq<Value>, s: Snapshot): (o: Outcome)
    requires p.SepBy1?
    ensures Forward(s, o.state)
    decreases fuel, p, 0, Rem(s), 0
  {
    var o1 := Run(g, p.sep, s, fuel);
    match o1.reply
    case Fault(_) => o1
    case Error(_) => Outcome(Ok(Items(acc)), s)
    case Ok(_) =>
      var o2 := Run(g, p.item, o1.state, fuel);
      match o2.reply
      case Fault(_) => o2
      case Error(_) => Outcome(Ok(Items(acc)), s)
      case Ok(v) =>
        if o2.state.index == s.index then Outcome(Fault(Loops), o2.state)
        else SepByLoop(g, p, fuel, acc + [v], o2.state)
  }

  /** The loop of `manyTill`: try the terminator; if it fails, go back and run an item. */
  function ManyTillLoop(g: Grammar, p: Parser, fuel: nat, acc: seq<Value>, s: Snapshot): (o: Outcome)
    requires p.ManyTill?
    ensures Forward(s, o.state)
    decreases fuel, p, 0, Rem(s), 0
  {
    var oe := Run(g, p.terminator, s, fuel);
    match oe.reply
    case Ok(_) => Outcome(Ok(Items(acc)), oe.state)
    case Fault(_) => oe
    case Error(_) =>
      var oi := Run(g, p.item, s, fuel);
      match oi.reply
      case Ok(v) =>
        if oi.state.index == s.index then Outcome(Fault(Loops), oi.state)
        else ManyTillLoop(g, p, fuel, acc + [v], oi.state)
      case _ => oi
  }
}
