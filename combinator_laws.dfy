/** Laws of the combinators other than the count loop: labelling, deferral,
    backtracking, choice, sequencing and projection, separated lists, `manyTill`
    and negative lookahead. */
module CombinatorLaws {
  import opened Js
  import opened Cursor
  import opened Errors
  import opened Parsing
  import opened Progress
  import opened CountLaws

  // ----- named -----

  /** One label normalizes to itself. */
  lemma NormalizedSingle(n: string)
    ensures Normalized([n]) == [n]
  {
    SortedDistinctUnique(Normalized([n]), [n]);
  }

  /** `named(name, p)`: a success or a non-parse fault passes through; a parse error is
      replaced by one whose only label is `name`, which keeps the inner error's override
      message and unexpected token and stands where the inner parser left the cursor.
      Without an override message it reads "file:line: expected name", plus the
      unexpected token when there is one. */
  lemma NamedLaw(g: Grammar, name: string, q: Parser, s: Snapshot, fuel: nat)
    ensures var o := Run(g, Named(name, q), s, fuel);
            var i := Run(g, q, s, fuel);
            && (!i.reply.Error? ==> o == i)
            && (i.reply.Error? ==>
                  && o.state == i.state && o.reply.Error?
                  && o.reply.err.expecteds == [name]
                  && o.reply.err.message == i.reply.err.message
                  && o.reply.err.unexpected == i.reply.err.unexpected
                  && o.reply.err.index == i.state.index && o.reply.err.line == i.state.line
                  && o.reply.err.column == i.state.column && o.reply.err.filename == s.filename)
  {
  }

  /** Without an override message, the error of `named(name, p)` reads
      "file:line: expected name", plus the unexpected token when there is one. */
  lemma NamedMessage(g: Grammar, name: string, q: Parser, s: Snapshot, fuel: nat)
    requires Run(g, q, s, fuel).reply.Error? && Run(g, q, s, fuel).reply.err.message == ""
    ensures var i := Run(g, q, s, fuel);
            var u := i.reply.err.unexpected;
            Message(Run(g, Named(name, q), s, fuel).reply.err)
              == s.filename + ":" + IntToString(i.state.line) + ": "
                 + ("expected " + name + (if Truthy(u) then ", but found " + Display(u) else ""))
  {
    var i := Run(g, q, s, fuel);
    var e := Run(g, Named(name, q), s, fuel).reply.err;
    assert e == ErrorAt(i.state, "", [name], i.reply.err.unexpected);
    assert e.filename == s.filename && e.line == i.state.line;
    NormalizedSingle(name);
    MessageShapes(e);
  }

  // ----- lazy and wrap -----

  /** `lazy(thunk)` and `wrap(thunk)` run the parser the thunk names; a thunk naming
      nothing throws a reference error, and each dereference spends one unit of fuel.
      On one fixed grammar the two run alike; the cache that tells them apart when the
      variable is rebound is `Exec.LazyRule`. */
  lemma RuleLaw(g: Grammar, name: string, s: Snapshot, fuel: nat)
    ensures name !in g ==> Run(g, Rule(name), s, fuel) == Outcome(Fault(ReferenceError(name)), s)
    ensures name in g && fuel > 0 ==> Run(g, Rule(name), s, fuel) == Run(g, g[name], s, fuel - 1)
    ensures Run(g, Lazy(name), s, fuel) == Run(g, Wrap(name), s, fuel)
  {
  }

  // ----- skip, option, optional -----

  /** `skip(p)` consumes what `p` consumes and fails as `p` fails, but returns undefined. */
  lemma SkipLaw(g: Grammar, q: Parser, s: Snapshot, fuel: nat)
    ensures var o := Run(g, Skip(q), s, fuel);
            var i := Run(g, q, s, fuel);
            && o.state == i.state
            && (i.reply.Ok? ==> o.reply == Ok(Undefined))
            && (!i.reply.Ok? ==> o == i)
  {
  }

  /** `option(d, p)` never throws a parse error: when `p` fails it returns `d` with the
      cursor back where it was; otherwise it is `p`. */
  lemma OptionLaw(g: Grammar, d: Value, q: Parser, s: Snapshot, fuel: nat)
    ensures var o := Run(g, Option(d, q), s, fuel);
            var i := Run(g, q, s, fuel);
            && !o.reply.Error?
            && (i.reply.Error? ==> o == Outcome(Ok(d), s))
            && (!i.reply.Error? ==> o == i)
            && Run(g, Optional(q), s, fuel) == (if i.reply.Error? then Outcome(Ok(Null), s) else i)
  {
  }

  // ----- choice -----

  /** With no alternatives, `choice` throws its initial `null`. */
  lemma ChoiceOfNothing(g: Grammar, s: Snapshot, fuel: nat)
    ensures Run(g, Choice([]), s, fuel) == Outcome(Fault(ThrownNull), s)
  {
  }

  /** Alternatives `0` to `|es| - 1` of a choice each threw a parse error, `es[j]`:
      the first one run from `s`, and each next one from wherever the one before it
      left the cursor, since `choice` does not rewind. `ts[j]` is the cursor
      alternative `j` ran from, and `ts[|es|]` where the last of them left it. */
  predicate FailThreaded(g: Grammar, alts: seq<Parser>, es: seq<ParseError>, ts: seq<Snapshot>, s: Snapshot, fuel: nat)
  {
    && |es| <= |alts| && |ts| == |es| + 1 && ts[0] == s
    && forall j :: 0 <= j < |es| ==> Run(g, alts[j], ts[j], fuel) == Outcome(Error(es[j]), ts[j + 1])
  }

  /** The threaded cursors stay in the file of `s`, and so do the errors. */
  lemma {:induction false} ThreadedFile(g: Grammar, alts: seq<Parser>, es: seq<ParseError>, ts: seq<Snapshot>, s: Snapshot, fuel: nat, j: nat)
    requires FailThreaded(g, alts, es, ts, s, fuel) && j <= |es|
    ensures ts[j].filename == s.filename
    ensures j < |es| ==> es[j].filename == s.filename
    decreases j
  {
    if j > 0 {
      ThreadedFile(g, alts, es, ts, s, fuel, j - 1);
      assert Run(g, alts[j - 1], ts[j - 1], fuel).state == ts[j];
    }
    if j < |es| {
      RunErrorsLocal(g, alts[j], ts[j], fuel);
      assert Run(g, alts[j], ts[j], fuel) == Outcome(Error(es[j]), ts[j + 1]);
    }
  }

  lemma {:induction false} ChoiceLoopThreaded(g: Grammar, p: Parser, fuel: nat, i: nat, es: seq<ParseError>, ts: seq<Snapshot>, s: Snapshot)
    requires p.Choice? && FailThreaded(g, p.alternatives, es, ts, s, fuel) && 1 <= i <= |es|
    requires forall j :: 0 <= j < |es| ==> es[j].filename == es[0].filename
    ensures MergeAll(es[0], es[1..i]).Success?
    ensures MergeAll(es[0], es[1..]).Success?
    ensures ChoiceLoop(g, p, fuel, i, Just(MergeAll(es[0], es[1..i]).value), ts[i])
            == ChoiceLoop(g, p, fuel, |es|, Just(MergeAll(es[0], es[1..]).value), ts[|es|])
    decreases |es| - i
  {
    if i < |es| {
      MergeAllStep(es, i);
      ChoiceLoopThreaded(g, p, fuel, i + 1, es, ts, s);
      assert Run(g, p.alternatives[i], ts[i], fuel) == Outcome(Error(es[i]), ts[i + 1]);
      ChoiceLoopErrorStep(g, p, fuel, i, MergeAll(es[0], es[1..i]).value, es[i], ts[i], ts[i + 1]);
    } else {
      assert es[1..i] == es[1..];
      MergeAllFarthest(es[0], es[1..]);
    }
  }

  /** Proof step of ChoiceLoopThreaded: an alternative that throws a parse error
      mergeable into the errors so far passes the loop on to the next one. */
  lemma ChoiceLoopErrorStep(g: Grammar, p: Parser, fuel: nat, i: nat, m: ParseError, e: ParseError, t: Snapshot, t': Snapshot)
    requires p.Choice? && i < |p.alternatives|
    requires Run(g, p.alternatives[i], t, fuel) == Outcome(Error(e), t') && m.filename == e.filename
    ensures Merge(m, e).Success?
    ensures ChoiceLoop(g, p, fuel, i, Just(m), t) == ChoiceLoop(g, p, fuel, i + 1, Just(Merge(m, e).value), t')
  {
  }

  /** One more error folded in. */
  lemma MergeAllStep(es: seq<ParseError>, i: nat)
    requires 1 <= i < |es|
    requires forall j :: 0 <= j < |es| ==> es[j].filename == es[0].filename
    ensures MergeAll(es[0], es[1..i]).Success?
    ensures MergeAll(es[0], es[1..i + 1]) == Merge(MergeAll(es[0], es[1..i]).value, es[i])
  {
    MergeAllFarthest(es[0], es[1..i]);
    assert es[1..i + 1][..i - 1] == es[1..i];
  }

  /** The loop of `choice` after the alternatives in `es` threw their parse errors: it
      stands where the last of them left the cursor, with their errors merged in order. */
  lemma ChoiceSkipsFailures(g: Grammar, alts: seq<Parser>, es: seq<ParseError>, ts: seq<Snapshot>, s: Snapshot, fuel: nat)
    requires FailThreaded(g, alts, es, ts, s, fuel) && |es| >= 1
    ensures MergeAll(es[0], es[1..]).Success?
    ensures Run(g, Choice(alts), s, fuel)
            == ChoiceLoop(g, Choice(alts), fuel, |es|, Just(MergeAll(es[0], es[1..]).value), ts[|es|])
  {
    forall j | 0 <= j < |es| ensures es[j].filename == s.filename {
      ThreadedFile(g, alts, es, ts, s, fuel, j);
    }
    assert es[1..1] == [];
    assert Run(g, alts[0], ts[0], fuel) == Outcome(Error(es[0]), ts[1]);
    ChoiceLoopThreaded(g, Choice(alts), fuel, 1, es, ts, s);
  }

  /** `choice` runs its alternatives in order without rewinding: when the first `k` throw
      parse errors, each from where the one before left the cursor, and alternative `k`
      does not throw one from where they left it, `choice` is that run of alternative `k`. */
  lemma ChoiceFirstSuccess(g: Grammar, alts: seq<Parser>, es: seq<ParseError>, ts: seq<Snapshot>, s: Snapshot, fuel: nat)
    requires FailThreaded(g, alts, es, ts, s, fuel) && |es| < |alts|
    requires !Run(g, alts[|es|], ts[|es|], fuel).reply.Error?
    ensures Run(g, Choice(alts), s, fuel) == Run(g, alts[|es|], ts[|es|], fuel)
  {
    if |es| >= 1 {
      ChoiceSkipsFailures(g, alts, es, ts, s, fuel);
    }
  }

  /** When every alternative throws a parse error, each run from where the one before
      left the cursor, `choice` throws the left fold of `merge` over their errors, in
      order (the farthest error, with the labels of every alternative that failed as
      far), with the cursor where the last alternative left it. */
  lemma ChoiceAllFail(g: Grammar, alts: seq<Parser>, es: seq<ParseError>, ts: seq<Snapshot>, s: Snapshot, fuel: nat)
    requires FailThreaded(g, alts, es, ts, s, fuel) && |es| == |alts| >= 1
    ensures MergeAll(es[0], es[1..]).Success?
    ensures Run(g, Choice(alts), s, fuel) == Outcome(Error(MergeAll(es[0], es[1..]).value), ts[|alts|])
  {
    ChoiceSkipsFailures(g, alts, es, ts, s, fuel);
  }

  /** The common case of alternatives that fail without consuming: every one of them
      runs from `s`, and the choice fails at `s`. */
  lemma ChoiceAllFailInPlace(g: Grammar, alts: seq<Parser>, es: seq<ParseError>, s: Snapshot, fuel: nat)
    requires |alts| >= 1 && |es| == |alts|
    requires forall j :: 0 <= j < |alts| ==> Run(g, alts[j], s, fuel) == Outcome(Error(es[j]), s)
    ensures MergeAll(es[0], es[1..]).Success?
    ensures Run(g, Choice(alts), s, fuel) == Outcome(Error(MergeAll(es[0], es[1..]).value), s)
  {
    var ts := seq(|es| + 1, _ => s);
    assert FailThreaded(g, alts, es, ts, s, fuel);
    ChoiceAllFail(g, alts, es, ts, s, fuel);
  }

  // ----- sequence, seq and the projections -----

  /** `acc` put in front of the results of a successful outcome. */
  function Prepend(acc: seq<Value>, o: Outcome): Outcome
  {
    if o.reply.Ok? && o.reply.value.Items? then Outcome(Ok(Items(acc + o.reply.value.vs)), o.state) else o
  }

  /** Proof step of SequenceLoopAcc: prepending in two steps is prepending once. */
  lemma PrependAppend(acc: seq<Value>, v: Value, o: Outcome)
    ensures Prepend(acc + [v], o) == Prepend(acc, Prepend([v], o))
  {
    if o.reply.Ok? && o.reply.value.Items? {
      assert acc + [v] + o.reply.value.vs == acc + ([v] + o.reply.value.vs);
    }
  }

  lemma {:induction false} SequenceLoopAcc(g: Grammar, p: Parser, fuel: nat, i: nat, acc: seq<Value>, s: Snapshot)
    requires (p.Sequence? || p.Seq?) && i <= |p.steps|
    ensures SequenceLoop(g, p, fuel, i, acc, s) == Prepend(acc, SequenceLoop(g, p, fuel, i, [], s))
    decreases |p.steps| - i
  {
    if i == |p.steps| {
      assert acc + [] == acc;
    } else {
      var o := Run(g, p.steps[i], s, fuel);
      if o.reply.Ok? {
        var v := o.reply.value;
        SequenceLoopAcc(g, p, fuel, i + 1, acc + [v], o.state);
        SequenceLoopAcc(g, p, fuel, i + 1, [v], o.state);
        var rest := SequenceLoop(g, p, fuel, i + 1, [], o.state);
        assert [] + [v] == [v];
        assert SequenceLoop(g, p, fuel, i, [], s) == SequenceLoop(g, p, fuel, i + 1, [v], o.state);
        assert SequenceLoop(g, p, fuel, i, acc, s) == SequenceLoop(g, p, fuel, i + 1, acc + [v], o.state);
        PrependAppend(acc, v, rest);
      }
    }
  }

  /** A sequence loop depends only on the steps it still has to run. */
  lemma {:induction false} SequenceLoopSteps(g: Grammar, p: Parser, q: Parser, fuel: nat, i: nat, j: nat, acc: seq<Value>, s: Snapshot)
    requires (p.Sequence? || p.Seq?) && (q.Sequence? || q.Seq?)
    requires i <= |p.steps| && j <= |q.steps| && p.steps[i..] == q.steps[j..]
    ensures SequenceLoop(g, p, fuel, i, acc, s) == SequenceLoop(g, q, fuel, j, acc, s)
    decreases |p.steps| - i
  {
    if i < |p.steps| {
      assert p.steps[i] == p.steps[i..][0] == q.steps[j];
      assert p.steps[i + 1..] == p.steps[i..][1..];
      assert q.steps[j + 1..] == q.steps[j..][1..];
      var o := Run(g, p.steps[i], s, fuel);
      if o.reply.Ok? {
        SequenceLoopSteps(g, p, q, fuel, i + 1, j + 1, acc + [o.reply.value], o.state);
      }
    }
  }

  /** `sequence(a, ...rest)` runs `a`, then the rest from where `a` left the cursor,
      and returns `a`'s result in front of theirs; the first failure is the sequence's. */
  lemma SequenceCons(g: Grammar, a: Parser, rest: seq<Parser>, s: Snapshot, fuel: nat)
    ensures Run(g, Sequence([a] + rest), s, fuel) ==
            var o := Run(g, a, s, fuel);
            if o.reply.Ok? then Prepend([o.reply.value], Run(g, Sequence(rest), o.state, fuel)) else o
  {
    var p := Sequence([a] + rest);
    var o := Run(g, a, s, fuel);
    assert p.steps[0] == a;
    assert Run(g, p, s, fuel) == SequenceLoop(g, p, fuel, 0, [], s);
    if o.reply.Ok? {
      var v := o.reply.value;
      assert [] + [v] == [v];
      assert SequenceLoop(g, p, fuel, 0, [], s) == SequenceLoop(g, p, fuel, 1, [v], o.state);
      SequenceLoopAcc(g, p, fuel, 1, [v], o.state);
      assert p.steps[1..] == rest;
      SequenceLoopSteps(g, p, Sequence(rest), fuel, 1, 0, [], o.state);
      assert Run(g, Sequence(rest), o.state, fuel) == SequenceLoop(g, Sequence(rest), fuel, 0, [], o.state);
    }
  }

  /** `sequence()` succeeds at once with no results. */
  lemma SequenceOfNothing(g: Grammar, s: Snapshot, fuel: nat)
    ensures Run(g, Sequence([]), s, fuel) == Outcome(Ok(Items([])), s)
  {
  }

  /** A successful sequence returns one result per step. */
  lemma SequenceLength(g: Grammar, ps: seq<Parser>, s: Snapshot, fuel: nat)
    ensures var o := Run(g, Sequence(ps), s, fuel);
            o.reply.Ok? ==> o.reply.value.Items? && |o.reply.value.vs| == |ps|
  {
  }

  /** `seq(...ps, callback)` is `sequence(...ps)` with the callback applied to the
      results, given the cursor saved before the sequence. */
  lemma SeqProjects(g: Grammar, ps: seq<Parser>, cb: Callback, s: Snapshot, fuel: nat)
    ensures Run(g, Seq(ps, cb), s, fuel) ==
            var o := Run(g, Sequence(ps), s, fuel);
            if o.reply.Ok? then Outcome(Ok(Project(cb, s, o.reply.value.vs)), o.state) else o
  {
    SequenceLoopSteps(g, Seq(ps, cb), Sequence(ps), fuel, 0, 0, [], s);
  }

  /** `get(n, ...)`, `left(...)`, `right(...)` and `between(open, p, close)` consume
      what the sequence consumes and fail as it fails; on success `get` returns the
      `n`-th result (undefined out of range), `left` the first, `right` the last
      (not the one before it), and `between` the middle one. */
  lemma Projections(g: Grammar, ps: seq<Parser>, n: int, s: Snapshot, fuel: nat)
    ensures var o := Run(g, Sequence(ps), s, fuel);
            && (o.reply.Ok? ==>
                  var vs := o.reply.value.vs;
                  && Run(g, Get(n, ps), s, fuel) == Outcome(Ok(if 0 <= n < |ps| then vs[n] else Undefined), o.state)
                  && Run(g, Left(ps), s, fuel) == Outcome(Ok(if |ps| > 0 then vs[0] else Undefined), o.state)
                  && Run(g, Right(ps), s, fuel) == Outcome(Ok(if |ps| > 0 then vs[|ps| - 1] else Undefined), o.state))
            && (!o.reply.Ok? ==>
                  Run(g, Get(n, ps), s, fuel) == o && Run(g, Left(ps), s, fuel) == o && Run(g, Right(ps), s, fuel) == o)
  {
    SeqProjects(g, ps, Pick(n), s, fuel);
    SeqProjects(g, ps, Pick(0), s, fuel);
    SeqProjects(g, ps, Pick(|ps| + 1 - 2), s, fuel);
  }

  lemma BetweenLaw(g: Grammar, open: Parser, q: Parser, close: Parser, s: Snapshot, fuel: nat)
    ensures var o := Run(g, Sequence([open, q, close]), s, fuel);
            && (o.reply.Ok? ==> Run(g, Between(open, q, close), s, fuel) == Outcome(Ok(o.reply.value.vs[1]), o.state))
            && (!o.reply.Ok? ==> Run(g, Between(open, q, close), s, fuel) == o)
  {
    Projections(g, [open, q, close], 1, s, fuel);
  }

  // ----- sepBy1, sepBy, endBy1, endBy, sepEndBy1, sepEndBy -----

  /** After the first item, `sepBy1` never throws a parse error: a failing separator or
      item ends the list, and the results collected so far are kept in front. */
  lemma {:induction false} SepByLoopNeverFails(g: Grammar, p: Parser, fuel: nat, acc: seq<Value>, s: Snapshot)
    requires p.SepBy1?
    ensures var o := SepByLoop(g, p, fuel, acc, s);
            && !o.reply.Error?
            && (o.reply.Ok? ==> o.reply.value.Items? && |o.reply.value.vs| >= |acc|
                                && o.reply.value.vs[..|acc|] == acc)
    decreases fuel, p, 0, Rem(s), 0
  {
    var o1 := Run(g, p.sep, s, fuel);
    if o1.reply.Ok? {
      var o2 := Run(g, p.item, o1.state, fuel);
      if o2.reply.Ok? && o2.state.index != s.index {
        var acc' := acc + [o2.reply.value];
        SepByLoopNeverFails(g, p, fuel, acc', o2.state);
        var o := SepByLoop(g, p, fuel, acc', o2.state);
        if o.reply.Ok? {
          assert o.reply.value.vs[..|acc|] == o.reply.value.vs[..|acc'|][..|acc|];
        }
      }
    }
  }

  /** `k` rounds of the `sepBy1` loop from `s`, each a separator and then an item that
      both succeed, the item ending past where the round began: the items' results
      in order, and the cursor after the last round. */
  function SepRounds(g: Grammar, p: Parser, fuel: nat, s: Snapshot, k: nat): Maybe<Iter>
    requires p.SepBy1?
    decreases k
  {
    if k == 0 then Just(Iter([], s))
    else
      var o1 := Run(g, p.sep, s, fuel);
      var o2 := Run(g, p.item, o1.state, fuel);
      if o1.reply.Ok? && o2.reply.Ok? && o2.state.index != s.index then
        match SepRounds(g, p, fuel, o2.state, k - 1)
        case Nothing => Nothing
        case Just(it) => Just(Iter([o2.reply.value] + it.values, it.state))
      else Nothing
  }

  /** The round from `t` ends the list: the separator throws a parse error, or it
      succeeds and the item after it throws one. */
  predicate RoundFails(g: Grammar, p: Parser, fuel: nat, t: Snapshot)
    requires p.SepBy1?
  {
    var o1 := Run(g, p.sep, t, fuel);
    o1.reply.Error? || (o1.reply.Ok? && Run(g, p.item, o1.state, fuel).reply.Error?)
  }

  /** Unrolling `k` successful rounds: the loop goes on from where they left it, with their items collected. */
  lemma {:induction false} SepByLoopUnroll(g: Grammar, p: Parser, fuel: nat, acc: seq<Value>, s: Snapshot, k: nat)
    requires p.SepBy1? && SepRounds(g, p, fuel, s, k).Just?
    ensures SepByLoop(g, p, fuel, acc, s)
            == SepByLoop(g, p, fuel, acc + SepRounds(g, p, fuel, s, k).value.values, SepRounds(g, p, fuel, s, k).value.state)
    decreases k
  {
    if k > 0 {
      var o1 := Run(g, p.sep, s, fuel);
      var o2 := Run(g, p.item, o1.state, fuel);
      var v := o2.reply.value;
      SepByLoopUnroll(g, p, fuel, acc + [v], o2.state, k - 1);
      var rest := SepRounds(g, p, fuel, o2.state, k - 1).value.values;
      assert acc + [v] + rest == acc + ([v] + rest);
    } else {
      assert acc + [] == acc;
    }
  }

  /** The list ended after `k` successful rounds from `s`, at the cursor before the failed
      round's separator, with the rounds' items after `acc`. */
  predicate SepStoppedAfter(g: Grammar, p: Parser, fuel: nat, acc: seq<Value>, s: Snapshot, o: Outcome, k: nat)
    requires p.SepBy1?
  {
    && SepRounds(g, p, fuel, s, k).Just?
    && RoundFails(g, p, fuel, SepRounds(g, p, fuel, s, k).value.state)
    && o == Outcome(Ok(Items(acc + SepRounds(g, p, fuel, s, k).value.values)), SepRounds(g, p, fuel, s, k).value.state)
  }

  /** Every successful run of the loop is some number of successful rounds and then a failed one. */
  lemma {:induction false} SepByLoopCases(g: Grammar, p: Parser, fuel: nat, acc: seq<Value>, s: Snapshot)
    requires p.SepBy1?
    ensures var o := SepByLoop(g, p, fuel, acc, s);
            o.reply.Ok? ==> exists k: nat :: SepStoppedAfter(g, p, fuel, acc, s, o, k)
    decreases fuel, p, 0, Rem(s), 0
  {
    var o := SepByLoop(g, p, fuel, acc, s);
    var o1 := Run(g, p.sep, s, fuel);
    assert SepRounds(g, p, fuel, s, 0) == Just(Iter([], s));
    assert acc + [] == acc;
    if o1.reply.Ok? {
      var o2 := Run(g, p.item, o1.state, fuel);
      if o2.reply.Ok? && o2.state.index != s.index {
        var v := o2.reply.value;
        SepByLoopCases(g, p, fuel, acc + [v], o2.state);
        if o.reply.Ok? {
          var k: nat :| SepStoppedAfter(g, p, fuel, acc + [v], o2.state, o, k);
          SepStoppedStep(g, p, fuel, acc, s, o, k);
        }
      } else if o.reply.Ok? {
        assert SepStoppedAfter(g, p, fuel, acc, s, o, 0);
      }
    } else if o.reply.Ok? {
      assert SepStoppedAfter(g, p, fuel, acc, s, o, 0);
    }
  }

  /** One more successful round in front of a list that ended. */
  lemma SepStoppedStep(g: Grammar, p: Parser, fuel: nat, acc: seq<Value>, s: Snapshot, o: Outcome, k: nat)
    requires p.SepBy1?
    requires var o1 := Run(g, p.sep, s, fuel);
             var o2 := Run(g, p.item, o1.state, fuel);
             && o1.reply.Ok? && o2.reply.Ok? && o2.state.index != s.index
             && SepStoppedAfter(g, p, fuel, acc + [o2.reply.value], o2.state, o, k)
    ensures SepStoppedAfter(g, p, fuel, acc, s, o, k + 1)
  {
    var o2 := Run(g, p.item, Run(g, p.sep, s, fuel).state, fuel);
    var v := o2.reply.value;
    var rest := SepRounds(g, p, fuel, o2.state, k).value.values;
    assert SepRounds(g, p, fuel, s, k + 1).value.values == [v] + rest;
    assert acc + [v] + rest == acc + ([v] + rest);
  }

  /** `sepBy1(p, sep)` fails exactly when its first item fails, and then with that
      item's failure. When it succeeds, its list is the first item's result followed
      by the item of each successful separator-and-item round, in order, and the
      cursor is back before the separator of the round that failed. */
  lemma SepBy1Law(g: Grammar, q: Parser, sep: Parser, s: Snapshot, fuel: nat)
    ensures var o := Run(g, SepBy1(q, sep), s, fuel);
            var first := Run(g, q, s, fuel);
            && (o.reply.Error? <==> first.reply.Error?)
            && (!first.reply.Ok? ==> o == first)
            && (o.reply.Ok? ==>
                  && first.reply.Ok?
                  && exists k: nat :: SepStoppedAfter(g, SepBy1(q, sep), fuel, [first.reply.value], first.state, o, k))
  {
    var first := Run(g, q, s, fuel);
    if first.reply.Ok? {
      SepByLoopNeverFails(g, SepBy1(q, sep), fuel, [first.reply.value], first.state);
      SepByLoopCases(g, SepBy1(q, sep), fuel, [first.reply.value], first.state);
    }
  }

  /** Conversely, a first item, `k` successful rounds and a failed one make `sepBy1`
      return exactly those `k + 1` results, at the cursor the `k` rounds reached. */
  lemma SepBy1Succeeds(g: Grammar, q: Parser, sep: Parser, s: Snapshot, fuel: nat, k: nat)
    requires Run(g, q, s, fuel).reply.Ok?
    requires var r := SepRounds(g, SepBy1(q, sep), fuel, Run(g, q, s, fuel).state, k);
             r.Just? && RoundFails(g, SepBy1(q, sep), fuel, r.value.state)
    ensures var first := Run(g, q, s, fuel);
            var r := SepRounds(g, SepBy1(q, sep), fuel, first.state, k);
            Run(g, SepBy1(q, sep), s, fuel) == Outcome(Ok(Items([first.reply.value] + r.value.values)), r.value.state)
  {
    var first := Run(g, q, s, fuel);
    SepByLoopUnroll(g, SepBy1(q, sep), fuel, [first.reply.value], first.state, k);
  }

  /** `sepBy(p, sep)` never throws a parse error: it is `sepBy1` when the first item
      parses, and otherwise the empty list with the cursor back where it was. */
  lemma SepByLaw(g: Grammar, q: Parser, sep: Parser, s: Snapshot, fuel: nat)
    ensures var o := Run(g, SepBy(q, sep), s, fuel);
            && !o.reply.Error?
            && (Run(g, q, s, fuel).reply.Error? ==> o == Outcome(Ok(Items([])), s))
            && (!Run(g, q, s, fuel).reply.Error? ==> o == Run(g, SepBy1(q, sep), s, fuel))
  {
    SepBy1Law(g, q, sep, s, fuel);
  }

  /** `endBy(p, end)` never throws a parse error; `endBy1(p, end)` fails exactly when
      the first `p` followed by `end` fails, and with that failure. */
  lemma EndByLaws(g: Grammar, q: Parser, end: Parser, s: Snapshot, fuel: nat)
    ensures !Run(g, EndBy(q, end), s, fuel).reply.Error?
    ensures Run(g, EndBy1(q, end), s, fuel).reply.Error? <==> Run(g, Left([q, end]), s, fuel).reply.Error?
    ensures Run(g, Left([q, end]), s, fuel).reply.Error? ==>
              Run(g, EndBy1(q, end), s, fuel) == Run(g, Left([q, end]), s, fuel)
  {
    NoMinimumNeverFails(g, Infinity, Left([q, end]), true, s, fuel);
    SomeFailsOnFirst(g, Left([q, end]), s, fuel);
  }

  /** `sepEndBy1(p, sepEnd)` is `sepBy1(p, sepEnd)` that also swallows one trailing
      separator: it fails exactly as `sepBy1` does and returns the same list. */
  lemma SepEndBy1Law(g: Grammar, q: Parser, sepEnd: Parser, s: Snapshot, fuel: nat)
    ensures var o := Run(g, SepEndBy1(q, sepEnd), s, fuel);
            var list := Run(g, SepBy1(q, sepEnd), s, fuel);
            && (o.reply.Error? <==> list.reply.Error?)
            && (!list.reply.Ok? ==> o == list)
            && (o.reply.Ok? ==> list.reply.Ok? && o.reply.value == list.reply.value
                                && o.state == Run(g, Optional(sepEnd), list.state, fuel).state)
  {
    TwoStepLeft(g, SepBy1(q, sepEnd), Optional(sepEnd), s, fuel);
  }

  /** `sepEndBy(p, sepEnd)` never throws a parse error: the empty list when the first
      item fails, and otherwise what `sepEndBy1` returns. */
  lemma SepEndByLaw(g: Grammar, q: Parser, sepEnd: Parser, s: Snapshot, fuel: nat)
    ensures var o := Run(g, SepEndBy(q, sepEnd), s, fuel);
            var list := Run(g, SepBy(q, sepEnd), s, fuel);
            && !o.reply.Error?
            && (o.reply.Ok? ==> list.reply.Ok? && o.reply.value == list.reply.value)
  {
    TwoStepLeft(g, SepBy(q, sepEnd), Optional(sepEnd), s, fuel);
    SepByLaw(g, q, sepEnd, s, fuel);
  }

  /** `left(a, b)` where `b` never throws a parse error: `a`'s outcome, followed by `b`. */
  lemma TwoStepLeft(g: Grammar, a: Parser, b: Parser, s: Snapshot, fuel: nat)
    requires b.Option?
    ensures var o := Run(g, Left([a, b]), s, fuel);
            var first := Run(g, a, s, fuel);
            && (o.reply.Error? <==> first.reply.Error?)
            && (!first.reply.Ok? ==> o == first)
            && (o.reply.Ok? ==> first.reply.Ok? && o.reply.value == first.reply.value
                                && o.state == Run(g, b, first.state, fuel).state)
  {
    var p := Left([a, b]);
    var first := Run(g, a, s, fuel);
    assert p.steps[0] == a && p.steps[1] == b;
    assert SequenceLoop(g, p, fuel, 0, [], s) == (if first.reply.Ok? then SequenceLoop(g, p, fuel, 1, [] + [first.reply.value], first.state) else first);
    if first.reply.Ok? {
      var ob := Run(g, b, first.state, fuel);
      assert !ob.reply.Error?;
      var vs := [] + [first.reply.value];
      assert SequenceLoop(g, p, fuel, 1, vs, first.state) == (if ob.reply.Ok? then SequenceLoop(g, p, fuel, 2, vs + [ob.reply.value], ob.state) else ob);
      if ob.reply.Ok? {
        assert (vs + [ob.reply.value])[0] == first.reply.value;
      }
    }
  }

  // ----- manyTill -----

  /** `k` rounds of the `manyTill` loop from `s`: in each, the terminator throws a parse
      error, and the item, run from the same cursor, succeeds past it. The items'
      results in order, and the cursor after the last round. */
  function TillRounds(g: Grammar, p: Parser, fuel: nat, s: Snapshot, k: nat): Maybe<Iter>
    requires p.ManyTill?
    decreases k
  {
    if k == 0 then Just(Iter([], s))
    else
      var oi := Run(g, p.item, s, fuel);
      if Run(g, p.terminator, s, fuel).reply.Error? && oi.reply.Ok? && oi.state.index != s.index then
        match TillRounds(g, p, fuel, oi.state, k - 1)
        case Nothing => Nothing
        case Just(it) => Just(Iter([oi.reply.value] + it.values, it.state))
      else Nothing
  }

  /** After `k` rounds from `s` the terminator matches, at a cursor reached from `s`:
      the loop returns the rounds' items after `acc`, with the terminator consumed. */
  ghost predicate TerminatedAfter(g: Grammar, p: Parser, fuel: nat, acc: seq<Value>, s: Snapshot, o: Outcome, k: nat)
    requires p.ManyTill?
  {
    var r := TillRounds(g, p, fuel, s, k);
    && r.Just? && Reaches(s, r.value.state)
    && Run(g, p.terminator, r.value.state, fuel).reply.Ok?
    && o == Outcome(Ok(Items(acc + r.value.values)), Run(g, p.terminator, r.value.state, fuel).state)
  }

  /** After `k` rounds from `s` the terminator fails, at a cursor reached from `s`, and
      the item run from there fails with the loop's outcome `o`. */
  ghost predicate ItemFailedAfter(g: Grammar, p: Parser, fuel: nat, s: Snapshot, o: Outcome, k: nat)
    requires p.ManyTill?
  {
    var r := TillRounds(g, p, fuel, s, k);
    && r.Just? && Reaches(s, r.value.state)
    && Run(g, p.terminator, r.value.state, fuel).reply.Error?
    && Run(g, p.item, r.value.state, fuel) == o
  }

  /** Every run of the loop that does not fault is some number of rounds, then either
      the terminator matching or the item failing. */
  lemma {:induction false} ManyTillLoopCases(g: Grammar, p: Parser, fuel: nat, acc: seq<Value>, s: Snapshot)
    requires p.ManyTill?
    ensures var o := ManyTillLoop(g, p, fuel, acc, s);
            && (o.reply.Ok? ==> exists k: nat :: TerminatedAfter(g, p, fuel, acc, s, o, k))
            && (o.reply.Error? ==> exists k: nat :: ItemFailedAfter(g, p, fuel, s, o, k))
    decreases fuel, p, 0, Rem(s), 0
  {
    var o := ManyTillLoop(g, p, fuel, acc, s);
    var oe := Run(g, p.terminator, s, fuel);
    assert TillRounds(g, p, fuel, s, 0) == Just(Iter([], s));
    assert acc + [] == acc;
    if oe.reply.Ok? {
      assert TerminatedAfter(g, p, fuel, acc, s, o, 0);
    } else if oe.reply.Error? {
      var oi := Run(g, p.item, s, fuel);
      if oi.reply.Ok? && oi.state.index != s.index {
        var v := oi.reply.value;
        ManyTillLoopCases(g, p, fuel, acc + [v], oi.state);
        if o.reply.Ok? {
          var k: nat :| TerminatedAfter(g, p, fuel, acc + [v], oi.state, o, k);
          TerminatedStep(g, p, fuel, acc, s, o, k);
        }
        if o.reply.Error? {
          var k: nat :| ItemFailedAfter(g, p, fuel, oi.state, o, k);
          ItemFailedStep(g, p, fuel, s, o, k);
        }
      } else if o.reply.Error? {
        assert ItemFailedAfter(g, p, fuel, s, o, 0);
      }
    }
  }

  /** One more round in front of a terminated loop. */
  lemma TerminatedStep(g: Grammar, p: Parser, fuel: nat, acc: seq<Value>, s: Snapshot, o: Outcome, k: nat)
    requires p.ManyTill? && Run(g, p.terminator, s, fuel).reply.Error?
    requires var oi := Run(g, p.item, s, fuel);
             && oi.reply.Ok? && oi.state.index != s.index
             && TerminatedAfter(g, p, fuel, acc + [oi.reply.value], oi.state, o, k)
    ensures TerminatedAfter(g, p, fuel, acc, s, o, k + 1)
  {
    var oi := Run(g, p.item, s, fuel);
    var v := oi.reply.value;
    var r := TillRounds(g, p, fuel, oi.state, k).value;
    RunReaches(g, p.item, s, fuel);
    ReachesTransitive(s, oi.state, r.state);
    assert TillRounds(g, p, fuel, s, k + 1).value == Iter([v] + r.values, r.state);
    assert acc + [v] + r.values == acc + ([v] + r.values);
  }

  /** One more round in front of a loop whose item failed. */
  lemma ItemFailedStep(g: Grammar, p: Parser, fuel: nat, s: Snapshot, o: Outcome, k: nat)
    requires p.ManyTill? && Run(g, p.terminator, s, fuel).reply.Error?
    requires var oi := Run(g, p.item, s, fuel);
             && oi.reply.Ok? && oi.state.index != s.index
             && ItemFailedAfter(g, p, fuel, oi.state, o, k)
    ensures ItemFailedAfter(g, p, fuel, s, o, k + 1)
  {
    var oi := Run(g, p.item, s, fuel);
    var r := TillRounds(g, p, fuel, oi.state, k).value;
    RunReaches(g, p.item, s, fuel);
    ReachesTransitive(s, oi.state, r.state);
    assert TillRounds(g, p, fuel, s, k + 1).value == Iter([oi.reply.value] + r.values, r.state);
  }

  /** Unrolling `k` rounds: the loop goes on from where they left it, with their items collected. */
  lemma {:induction false} ManyTillLoopUnroll(g: Grammar, p: Parser, fuel: nat, acc: seq<Value>, s: Snapshot, k: nat)
    requires p.ManyTill? && TillRounds(g, p, fuel, s, k).Just?
    ensures ManyTillLoop(g, p, fuel, acc, s)
            == ManyTillLoop(g, p, fuel, acc + TillRounds(g, p, fuel, s, k).value.values, TillRounds(g, p, fuel, s, k).value.state)
    decreases k
  {
    if k > 0 {
      var oi := Run(g, p.item, s, fuel);
      var v := oi.reply.value;
      ManyTillLoopUnroll(g, p, fuel, acc + [v], oi.state, k - 1);
      var rest := TillRounds(g, p, fuel, oi.state, k - 1).value.values;
      assert acc + [v] + rest == acc + ([v] + rest);
    } else {
      assert acc + [] == acc;
    }
  }

  /** `manyTill(p, end)`: when `end` matches at once, the empty list after `end`.
      Otherwise a success is the results of the items of some number of rounds, in
      order, each round an `end` that failed and an item run from the same cursor,
      followed by an `end` that matched and is consumed. A parse error comes only from
      an item run where `end` had just failed, after such rounds. */
  lemma ManyTillLaw(g: Grammar, q: Parser, end: Parser, s: Snapshot, fuel: nat)
    ensures var o := Run(g, ManyTill(q, end), s, fuel);
            var e := Run(g, end, s, fuel);
            && (e.reply.Ok? ==> o == Outcome(Ok(Items([])), e.state))
            && (o.reply.Ok? ==> exists k: nat :: TerminatedAfter(g, ManyTill(q, end), fuel, [], s, o, k))
            && (o.reply.Error? ==> exists k: nat :: ItemFailedAfter(g, ManyTill(q, end), fuel, s, o, k))
  {
    ManyTillLoopCases(g, ManyTill(q, end), fuel, [], s);
  }

  /** Conversely, `k` rounds from `s` followed by a matching `end` make `manyTill` return
      exactly the rounds' `k` results, with the cursor after that `end`. */
  lemma ManyTillSucceeds(g: Grammar, q: Parser, end: Parser, s: Snapshot, fuel: nat, k: nat)
    requires var r := TillRounds(g, ManyTill(q, end), fuel, s, k);
             r.Just? && Run(g, end, r.value.state, fuel).reply.Ok?
    ensures var r := TillRounds(g, ManyTill(q, end), fuel, s, k).value;
            Run(g, ManyTill(q, end), s, fuel) == Outcome(Ok(Items(r.values)), Run(g, end, r.state, fuel).state)
  {
    var r := TillRounds(g, ManyTill(q, end), fuel, s, k).value;
    ManyTillLoopUnroll(g, ManyTill(q, end), fuel, [], s, k);
    assert [] + r.values == r.values;
  }

  // ----- notFollowedBy -----

  /** `notFollowedBy(p)` (as it evidently means to work) never moves the cursor unless
      `p` throws something other than a parse error: it succeeds with undefined exactly
      when `p` fails, and when `p` succeeds it fails at the cursor, with no label and
      `p`'s result, as JSON, as the unexpected token. */
  lemma NotFollowedByLaw(g: Grammar, q: Parser, s: Snapshot, fuel: nat)
    ensures var o := Run(g, NotFollowedBy(q), s, fuel);
            var i := Run(g, q, s, fuel);
            && (!i.reply.Fault? ==> o.state == s)
            && (o.reply.Ok? <==> i.reply.Error?)
            && (o.reply.Ok? ==> o.reply.value == Undefined)
            && (i.reply.Ok? ==> o.reply == Error(ErrorAt(s, "", [], Stringify(i.reply.value))))
            && (i.reply.Fault? ==> o == i)
  {
  }
}
