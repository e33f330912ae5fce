/** The parsers as the source runs them: functions of one shared, mutable `Status`
    that compare through `get`, consume through `update`, and backtrack through
    `save` and `reset`, with the repetitions written as the loops they are. Each
    method is proved to leave the cursor, and to return or throw, exactly what
    `Parsing.Run` says. */
module Exec {
  import opened Js
  import opened Cursor
  import opened Errors
  import opened Parsing

  /** `stringParser`: each character of `str` against `get(i)`; at the first
      mismatch the error is thrown before anything is consumed. */
  method ExecLiteral(st: Status, str: string) returns (r: Reply)
    modifies st
    ensures Outcome(r, st.Snap()) == LiteralAt(old(st.Snap()), str)
  {
    var i := 0;
    while i < |str|
      invariant 0 <= i <= |str|
      invariant st.Snap() == old(st.Snap())
      invariant forall j :: 0 <= j < i ==> Peek(st.Snap(), j) == [str[j]]
    {
      if [str[i]] != st.Get(i) {
        return Error(ErrorAt(st.Snap(), "", [Quote(str)], Undefined));
      }
      i := i + 1;
    }
    st.Update(str);
    r := Ok(Text(str));
  }

  /** `satisfyParser` */
  method ExecSatisfy(st: Status, name: string, cond: string -> bool) returns (r: Reply)
    modifies st
    ensures Outcome(r, st.Snap()) == SatisfyAt(old(st.Snap()), name, cond)
  {
    var c := st.Get(0);
    if cond(c) {
      st.Update(c);
      r := Ok(Text(c));
    } else {
      r := Error(ErrorAt(st.Snap(), "", ["<" + name + ">"], Undefined));
    }
  }

  /** `anyParser` */
  method ExecAnyChar(st: Status) returns (r: Reply)
    modifies st
    ensures Outcome(r, st.Snap()) == AnyCharAt(old(st.Snap()))
  {
    var c := st.Get(0);
    if c != "" {
      st.Update(c);
      r := Ok(Text(c));
    } else {
      r := Error(ErrorAt(st.Snap(), "", ["any character"], Text("end of file")));
    }
  }

  /** `notStringParser` */
  method ExecNotChar(st: Status, chr: char) returns (r: Reply)
    modifies st
    ensures Outcome(r, st.Snap()) == NotCharAt(old(st.Snap()), chr)
  {
    var c := st.Get(0);
    if c == [chr] {
      return Error(ErrorAt(st.Snap(), "", [], Text(Quote([chr]))));
    } else if c == "" {
      return Error(ErrorAt(st.Snap(), "", ["not " + Quote([chr])], Text("end of file")));
    }
    st.Update(c);
    r := Ok(Text(c));
  }

  /** Running any parser on the shared cursor. */
  method Exec(g: Grammar, p: Parser, st: Status, fuel: nat) returns (r: Reply)
    modifies st
    ensures Outcome(r, st.Snap()) == Run(g, p, old(st.Snap()), fuel)
    decreases fuel, p, 2
  {
    match p
    case Fail(m, labels, u) =>
      r := Error(ErrorAt(st.Snap(), m, labels, u));
    case Empty =>
      r := Error(EmptyError(st.Snap()));
    case Literal(str) =>
      r := ExecLiteral(st, str);
    case Satisfy(name, cond) =>
      r := ExecSatisfy(st, name, cond);
    case AnyChar =>
      r := ExecAnyChar(st);
    case NotChar(chr) =>
      r := ExecNotChar(st, chr);
    case Named(_, _) =>
      r := ExecNamed(g, p, st, fuel);
    case Rule(_) =>
      r := ExecRule(g, p, st, fuel);
    case Count(_, _, _, _) =>
      r := ExecCount(g, p, st, fuel);
    case Skip(_) =>
      r := ExecSkip(g, p, st, fuel);
    case Option(_, _) =>
      r := ExecOption(g, p, st, fuel);
    case Choice(_) =>
      r := ExecChoice(g, p, st, fuel);
    case Sequence(_) =>
      r := ExecSequence(g, p, st, fuel);
    case Seq(_, _) =>
      r := ExecSeq(g, p, st, fuel);
    case SepBy1(_, _) =>
      r := ExecSepBy1(g, p, st, fuel);
    case ManyTill(_, _) =>
      r := ExecManyTill(g, p, st, fuel);
    case NotFollowedBy(_) =>
      r := ExecNotFollowedBy(g, p, st, fuel);
  }

  /** `namedParser`: the inner parser's error is thrown again, where the inner
      parser left the cursor, with the name as its only label. */
  method ExecNamed(g: Grammar, p: Parser, st: Status, fuel: nat) returns (r: Reply)
    requires p.Named?
    modifies st
    ensures Outcome(r, st.Snap()) == Run(g, p, old(st.Snap()), fuel)
    decreases fuel, p, 1
  {
    r := Exec(g, p.inner, st, fuel);
    if r.Error? {
      r := Error(ErrorAt(st.Snap(), r.err.message, [p.name], r.err.unexpected));
    }
  }

  /** `wrapParser`: the thunk is called again on every run. */
  method ExecRule(g: Grammar, p: Parser, st: Status, fuel: nat) returns (r: Reply)
    requires p.Rule?
    modifies st
    ensures Outcome(r, st.Snap()) == Run(g, p, old(st.Snap()), fuel)
    decreases fuel, p, 1
  {
    if p.name !in g {
      r := Fault(ReferenceError(p.name));
    } else if fuel == 0 {
      r := Fault(OutOfFuel);
    } else {
      r := Exec(g, g[p.name], st, fuel - 1);
    }
  }

  /** `skipParser` */
  method ExecSkip(g: Grammar, p: Parser, st: Status, fuel: nat) returns (r: Reply)
    requires p.Skip?
    modifies st
    ensures Outcome(r, st.Snap()) == Run(g, p, old(st.Snap()), fuel)
    decreases fuel, p, 1
  {
    r := Exec(g, p.inner, st, fuel);
    if r.Ok? {
      r := Ok(Undefined);
    }
  }

  /** `optionParser`: on a parse error, back to the save and the default. */
  method ExecOption(g: Grammar, p: Parser, st: Status, fuel: nat) returns (r: Reply)
    requires p.Option?
    modifies st
    ensures Outcome(r, st.Snap()) == Run(g, p, old(st.Snap()), fuel)
    decreases fuel, p, 1
  {
    var save := st.Save();
    r := Exec(g, p.inner, st, fuel);
    if r.Error? {
      st.Reset(save);
      r := Ok(p.fallback);
    }
  }

  /** `seqParser`: the cursor saved before the steps is the callback's `this`. */
  method ExecSeq(g: Grammar, p: Parser, st: Status, fuel: nat) returns (r: Reply)
    requires p.Seq?
    modifies st
    ensures Outcome(r, st.Snap()) == Run(g, p, old(st.Snap()), fuel)
    decreases fuel, p, 1
  {
    var save := st.Save();
    r := ExecSequence(g, p, st, fuel);
    if r.Ok? {
      r := Ok(Project(p.callback, save.Snap(), r.value.vs));
    }
  }

  /** `notFollowedByParser` as it is meant to work: whichever way the inner parser
      ends, short of a thrown non-parse error, the cursor goes back to the save. */
  method ExecNotFollowedBy(g: Grammar, p: Parser, st: Status, fuel: nat) returns (r: Reply)
    requires p.NotFollowedBy?
    modifies st
    ensures Outcome(r, st.Snap()) == Run(g, p, old(st.Snap()), fuel)
    decreases fuel, p, 1
  {
    var save := st.Save();
    r := Exec(g, p.inner, st, fuel);
    match r {
    case Ok(v) =>
      st.Reset(save);
      r := Error(ErrorAt(st.Snap(), "", [], Stringify(v)));
    case Error(_) =>
      st.Reset(save);
      r := Ok(Undefined);
    case Fault(_) =>
    }
  }

  /** `countParser`/`skipCount`'s loop: after every success the cursor is saved,
      and a failure at or past `min` goes back to the last save. */
  method ExecCount(g: Grammar, p: Parser, st: Status, fuel: nat) returns (r: Reply)
    requires p.Count?
    modifies st
    ensures Outcome(r, st.Snap()) == CountLoop(g, p, fuel, 0, [], old(st.Snap()))
    decreases fuel, p, 0
  {
    var acc: seq<Value> := [];
    var i: nat := 0;
    var save := st.Save();
    while Below(i, p.max)
      invariant fresh(save) && save.Snap() == st.Snap()
      invariant CountLoop(g, p, fuel, i, acc, st.Snap()) == CountLoop(g, p, fuel, 0, [], old(st.Snap()))
      decreases Rem(st.Snap()), Budget(p.max, i)
    {
      r := Exec(g, p.inner, st, fuel);
      match r {
      case Ok(v) =>
        if st.index == save.index && p.max.Infinity? {
          return Fault(Loops);
        }
        acc := acc + [v];
        i := i + 1;
      case Error(_) =>
        if i < p.min {
          return;
        }
        st.Reset(save);
        return Ok(Collect(p.keep, acc));
      case Fault(_) =>
        return;
      }
      save := st.Save();
    }
    r := Ok(Collect(p.keep, acc));
  }

  /** `choiceParser`: the alternatives in order on the same cursor, merging the
      errors of those that fail; with no alternatives it throws `null`. */
  method ExecChoice(g: Grammar, p: Parser, st: Status, fuel: nat) returns (r: Reply)
    requires p.Choice?
    modifies st
    ensures Outcome(r, st.Snap()) == ChoiceLoop(g, p, fuel, 0, Nothing, old(st.Snap()))
    decreases fuel, p, 0
  {
    var err: Maybe<ParseError> := Nothing;
    var i := 0;
    while i < |p.alternatives|
      invariant i <= |p.alternatives|
      invariant ChoiceLoop(g, p, fuel, i, err, st.Snap()) == ChoiceLoop(g, p, fuel, 0, Nothing, old(st.Snap()))
    {
      r := Exec(g, p.alternatives[i], st, fuel);
      if !r.Error? {
        return;
      }
      if err.Nothing? {
        err := Just(r.err);
      } else {
        var merged := Merge(err.value, r.err);
        if merged.Failure? {
          return Fault(merged.fault);
        }
        err := Just(merged.value);
      }
      i := i + 1;
    }
    if err.Nothing? {
      r := Fault(ThrownNull);
    } else {
      r := Error(err.value);
    }
  }

  /** `sequenceParser`: every step in order, the results pushed one by one. */
  method ExecSequence(g: Grammar, p: Parser, st: Status, fuel: nat) returns (r: Reply)
    requires p.Sequence? || p.Seq?
    modifies st
    ensures Outcome(r, st.Snap()) == SequenceLoop(g, p, fuel, 0, [], old(st.Snap()))
    decreases fuel, p, 0
  {
    var results: seq<Value> := [];
    var i := 0;
    while i < |p.steps|
      invariant i <= |p.steps|
      invariant SequenceLoop(g, p, fuel, i, results, st.Snap()) == SequenceLoop(g, p, fuel, 0, [], old(st.Snap()))
    {
      r := Exec(g, p.steps[i], st, fuel);
      if !r.Ok? {
        return;
      }
      results := results + [r.value];
      i := i + 1;
    }
    r := Ok(Items(results));
  }

  /** `sepBy1Parser`: the first item outside the loop; then a separator and an item
      from a saved cursor, until either fails and the cursor goes back to that save. */
  method ExecSepBy1(g: Grammar, p: Parser, st: Status, fuel: nat) returns (r: Reply)
    requires p.SepBy1?
    modifies st
    ensures Outcome(r, st.Snap()) == Run(g, p, old(st.Snap()), fuel)
    decreases fuel, p, 0
  {
    r := Exec(g, p.item, st, fuel);
    if !r.Ok? {
      return;
    }
    var results := [r.value];
    while true
      invariant SepByLoop(g, p, fuel, results, st.Snap()) == Run(g, p, old(st.Snap()), fuel)
      decreases Rem(st.Snap())
    {
      var save := st.Save();
      r := Exec(g, p.sep, st, fuel);
      if r.Fault? {
        return;
      } else if r.Error? {
        st.Reset(save);
        return Ok(Items(results));
      }
      r := Exec(g, p.item, st, fuel);
      if r.Fault? {
        return;
      } else if r.Error? {
        st.Reset(save);
        return Ok(Items(results));
      }
      if st.index == save.index {
        return Fault(Loops);
      }
      results := results + [r.value];
    }
  }

  /** `manyTillParser`: the terminator first, from the saved cursor; when it fails,
      back to the save, one item, and a new save. */
  method ExecManyTill(g: Grammar, p: Parser, st: Status, fuel: nat) returns (r: Reply)
    requires p.ManyTill?
    modifies st
    ensures Outcome(r, st.Snap()) == ManyTillLoop(g, p, fuel, [], old(st.Snap()))
    decreases fuel, p, 0
  {
    var results: seq<Value> := [];
    var save := st.Save();
    while true
      invariant fresh(save) && save.Snap() == st.Snap()
      invariant ManyTillLoop(g, p, fuel, results, st.Snap()) == ManyTillLoop(g, p, fuel, [], old(st.Snap()))
      decreases Rem(st.Snap())
    {
      r := Exec(g, p.terminator, st, fuel);
      if r.Ok? {
        return Ok(Items(results));
      } else if r.Fault? {
        return;
      }
      st.Reset(save);
      r := Exec(g, p.item, st, fuel);
      if !r.Ok? {
        return;
      }
      if st.index == save.index {
        return Fault(Loops);
      }
      results := results + [r.value];
      save := st.Save();
    }
  }

  /** `lazyParser`: the thunk is called on the first run only, and its parser is
      kept in the closure's `cache`/`parser` variables for the runs after. The
      thunk reads the grammar variable `name`; a grammar passed to a later run may
      bind that variable to another parser, which the cache does not see. */
  class LazyRule {
    const name: string
    var cache: bool
    var parser: Parser

    /** The cache holds what the thunk would return now. */
    ghost predicate Valid(g: Grammar)
      reads this
    {
      cache ==> name in g && parser == g[name]
    }

    constructor (name: string)
      ensures this.name == name && !cache
    {
      this.name := name;
      cache := false;
      parser := Empty;
    }

    /** The first run that finds the variable bound calls the thunk, caches its parser
        and runs it as `wrap` would; a thunk that throws caches nothing. Every later
        run calls the cached parser and not the thunk, one dereference deep, whatever
        the variable holds by then. While the grammar stays the one cached from, this
        is the run of the rule the thunk names. */
    method Parse(g: Grammar, st: Status, fuel: nat) returns (r: Reply)
      modifies this, st
      ensures old(cache) ==> cache && parser == old(parser)
      ensures !old(cache) ==> (cache <==> name in g) && (name in g ==> parser == g[name])
      ensures old(cache) ==>
                Outcome(r, st.Snap()) == (if fuel == 0 then Outcome(Fault(OutOfFuel), old(st.Snap()))
                                          else Run(g, old(parser), old(st.Snap()), fuel - 1))
      ensures !old(cache) ==> Outcome(r, st.Snap()) == Run(g, Rule(name), old(st.Snap()), fuel)
      ensures old(Valid(g)) ==> Valid(g) && Outcome(r, st.Snap()) == Run(g, Rule(name), old(st.Snap()), fuel)
    {
      if !cache {
        if name !in g {
          return Fault(ReferenceError(name));
        }
        parser := g[name];
        cache := true;
      }
      if fuel == 0 {
        return Fault(OutOfFuel);
      } else {
        r := Exec(g, parser, st, fuel - 1);
      }
    }
  }

  /** Where `lazy` and `wrap` part: after a first run under `g1`, a second run under a
      grammar `g2` still calls `g1`'s parser for the variable, where `wrap` would call
      `g2`'s. `mid` is the cursor between the two runs. */
  method LazyKeepsFirstParser(name: string, g1: Grammar, g2: Grammar, st: Status, fuel: nat)
      returns (r1: Reply, mid: Snapshot, r2: Reply)
    requires name in g1 && name in g2 && fuel > 0
    modifies st
    ensures Outcome(r1, mid) == Run(g1, Wrap(name), old(st.Snap()), fuel)
    ensures Outcome(r2, st.Snap()) == Run(g2, g1[name], mid, fuel - 1)
    ensures Run(g2, Wrap(name), mid, fuel) == Run(g2, g2[name], mid, fuel - 1)
  {
    var lazy := new LazyRule(name);
    r1 := lazy.Parse(g1, st, fuel);
    mid := st.Snap();
    r2 := lazy.Parse(g2, st, fuel);
  }
}
