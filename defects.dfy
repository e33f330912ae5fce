/** Three combinators as siscom.js writes them, next to the corrected forms that
    `Parsing` uses, with the inputs on which the two differ.

    The source runs in sloppy mode, so an assignment to an undeclared name
    creates a global, while reading an undeclared name throws a `ReferenceError`.
    `globals` is the set of names the global object holds when the parser runs. */
module Defects {
  import opened Js
  import opened Cursor
  import opened Errors
  import opened Parsing
  import opened CombinatorLaws

  // ----- sepBy -----

  /** `sepBy(p, sep)` as written: it looks up `Combunators`, which nothing defines,
      so building the parser throws before any parser exists. */
  function SepByAsWritten(item: Parser, sep: Parser, globals: set<string>): (r: Result<Parser>)
    ensures r.Failure? <==> "Combunators" !in globals
    ensures r.Success? ==> r.value == SepBy(item, sep)
  {
    if "Combunators" !in globals then Failure(ReferenceError("Combunators"))
    else Success(SepBy(item, sep))
  }

  /** Unless a global of that misspelt name happens to exist, every call throws; the
      corrected `sepBy` builds a parser that accepts the empty input with the empty list. */
  lemma SepByAsWrittenThrows(item: Parser, sep: Parser, globals: set<string>, g: Grammar, s: Snapshot, fuel: nat)
    requires "Combunators" !in globals
    requires Run(g, item, s, fuel).reply.Error?
    ensures SepByAsWritten(item, sep, globals) == Failure(ReferenceError("Combunators"))
    ensures Run(g, SepBy(item, sep), s, fuel) == Outcome(Ok(Items([])), s)
  {
    SepByLaw(g, item, sep, s, fuel);
  }

  // ----- sepEndBy -----

  /** The message of the `RangeError` a JavaScript engine throws when the call stack overflows. */
  const StackOverflow := RangeError("Maximum call stack size exceeded")

  /** `sepEndBy(p, sepEnd)` as written: it calls itself with the same arguments
      before doing anything else. `frames` is how many more calls the stack can hold. */
  function SepEndByAsWritten(item: Parser, sepEnd: Parser, frames: nat): (r: Result<Parser>)
    ensures r.Failure? ==> r.fault == StackOverflow
    decreases frames
  {
    if frames == 0 then Failure(StackOverflow)
    else
      var inner := SepEndByAsWritten(item, sepEnd, frames - 1);
      if inner.Failure? then inner
      else Success(Left([inner.value, Optional(sepEnd)]))
  }

  /** However deep the stack, building the parser as written overflows it. */
  lemma {:induction false} SepEndByAsWrittenOverflows(item: Parser, sepEnd: Parser, frames: nat)
    ensures SepEndByAsWritten(item, sepEnd, frames) == Failure(StackOverflow)
    decreases frames
  {
    if frames > 0 {
      SepEndByAsWrittenOverflows(item, sepEnd, frames - 1);
    }
  }

  /** The corrected `sepEndBy` (with `sepBy` for the inner call) is a parser that
      never throws a parse error, and where the first item fails it returns the empty
      list (unless the optional separator throws something other than a parse error). */
  lemma SepEndByCorrected(item: Parser, sepEnd: Parser, g: Grammar, s: Snapshot, fuel: nat)
    requires Run(g, item, s, fuel).reply.Error?
    ensures !Run(g, SepEndBy(item, sepEnd), s, fuel).reply.Error?
    ensures Run(g, SepEndBy(item, sepEnd), s, fuel).reply.Ok? ==>
              Run(g, SepEndBy(item, sepEnd), s, fuel).reply == Ok(Items([]))
  {
    SepByLaw(g, item, sepEnd, s, fuel);
    SepEndByLaw(g, item, sepEnd, s, fuel);
  }

  // ----- notFollowedBy -----

  /** `notFollowedBy(p)` as written. The statement `result;` after the declaration of
      `save` reads a name that was never declared, which throws before `p` runs.
      Where a global `result` exists, the function goes on; when `p` succeeds it
      throws the "unexpected" error where `p` left the cursor and does not put the
      cursor back. */
  function NotFollowedByAsWritten(g: Grammar, q: Parser, s: Snapshot, fuel: nat, globals: set<string>): (o: Outcome)
    ensures "result" !in globals ==> o == Outcome(Fault(ReferenceError("result")), s)
    ensures o.reply.Ok? ==> o.reply.value == Undefined && o.state == s
    ensures o.reply.Error? ==> o.reply.err.index == o.state.index && o.state == Run(g, q, s, fuel).state
  {
    if "result" !in globals then Outcome(Fault(ReferenceError("result")), s)
    else
      var o := Run(g, q, s, fuel);
      match o.reply
      case Ok(v) => Outcome(Error(ErrorAt(o.state, "", [], Stringify(v))), o.state)
      case Error(_) => Outcome(Ok(Undefined), s)
      case Fault(_) => o
  }

  /** Without a global `result`, every run throws a `ReferenceError`, whatever `p`
      would have done; the corrected parser throws nothing of the kind unless `p` does. */
  lemma NotFollowedByAsWrittenThrows(g: Grammar, q: Parser, s: Snapshot, fuel: nat, globals: set<string>)
    requires "result" !in globals
    ensures NotFollowedByAsWritten(g, q, s, fuel, globals).reply == Fault(ReferenceError("result"))
    ensures Run(g, NotFollowedBy(q), s, fuel).reply == Fault(ReferenceError("result"))
            ==> Run(g, q, s, fuel).reply == Fault(ReferenceError("result"))
  {
    NotFollowedByLaw(g, q, s, fuel);
  }

  /** Even with a global `result`, the version as written differs from the corrected
      one exactly when `p` succeeds after consuming input: the cursor stays where `p`
      left it and the error is placed there. */
  lemma NotFollowedByAsWrittenVsCorrected(g: Grammar, q: Parser, s: Snapshot, fuel: nat, globals: set<string>)
    requires "result" in globals
    ensures var w := NotFollowedByAsWritten(g, q, s, fuel, globals);
            var c := Run(g, NotFollowedBy(q), s, fuel);
            var i := Run(g, q, s, fuel);
            && (w.reply.Ok? <==> c.reply.Ok?)
            && (w.reply.Error? <==> c.reply.Error?)
            && (!i.reply.Ok? ==> w == c)
            && (i.reply.Ok? ==> w.state == i.state && c.state == s
                                && w.reply.err == c.reply.err.(index := i.state.index, line := i.state.line,
                                                               column := i.state.column))
  {
    NotFollowedByLaw(g, q, s, fuel);
  }

  /** The input that shows it: `notFollowedBy(string("a"))` on "a" leaves the cursor
      after the "a" as written, and at offset 0 once corrected. */
  lemma NotFollowedByLeavesCursor()
    ensures var s := Start("a", "<string>");
            && NotFollowedByAsWritten(map[], Literal("a"), s, 0, {"result"}).state.index == 1
            && Run(map[], NotFollowedBy(Literal("a")), s, 0).state.index == 0
            && Run(map[], NotFollowedBy(Literal("a")), s, 0).reply.Error?
  {
    var s := Start("a", "<string>");
    assert Peek(s, 0) == "a";
    assert MatchesAt(s, "a");
  }
}
