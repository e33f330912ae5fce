/** `count(min, max, p)` and `skipCount`, and with them `many`, `some`, `min`,
    `max`, `times` and the `skip*` family: what the loop returns, where it leaves
    the cursor, and which error escapes it. */
module CountLaws {
  import opened Js
  import opened Cursor
  import opened Errors
  import opened Parsing

  datatype Iter = Iter(values: seq<Value>, state: Snapshot)

  /** Attempts `i`, `i + 1`, ... `i + k - 1` of a count loop, started at `s`, all
      succeed: each is allowed by the upper bound, and under an unbounded upper bound
      each moves the cursor. The results and the cursor after the last one. */
  function Repeat(g: Grammar, p: Parser, fuel: nat, i: nat, s: Snapshot, k: nat): Maybe<Iter>
    requires p.Count?
    decreases k
  {
    if k == 0 then Just(Iter([], s))
    else
      var o := Run(g, p.inner, s, fuel);
      if Below(i, p.max) && o.reply.Ok? && !(o.state.index == s.index && p.max.Infinity?) then
        match Repeat(g, p, fuel, i + 1, o.state, k - 1)
        case Nothing => Nothing
        case Just(it) => Just(Iter([o.reply.value] + it.values, it.state))
      else Nothing
  }

  /** After the successful attempts, the loop stops cleanly at attempt `j` from `t`:
      the bound is reached, or the attempt fails with a parse error once `min`
      attempts have succeeded. */
  predicate Stops(g: Grammar, p: Parser, fuel: nat, j: nat, t: Snapshot)
    requires p.Count?
  {
    !Below(j, p.max) || (j >= p.min && Run(g, p.inner, t, fuel).reply.Error?)
  }

  /** Unrolling `k` successful attempts: the loop goes on from where they left it, with their results collected. */
  lemma {:induction false} CountLoopUnroll(g: Grammar, p: Parser, fuel: nat, i: nat, acc: seq<Value>, s: Snapshot, k: nat)
    requires p.Count? && Repeat(g, p, fuel, i, s, k).Just?
    ensures |Repeat(g, p, fuel, i, s, k).value.values| == k
    ensures CountLoop(g, p, fuel, i, acc, s) ==
            CountLoop(g, p, fuel, i + k, acc + Repeat(g, p, fuel, i, s, k).value.values, Repeat(g, p, fuel, i, s, k).value.state)
    decreases k
  {
    if k > 0 {
      var o := Run(g, p.inner, s, fuel);
      var v := o.reply.value;
      CountLoopUnroll(g, p, fuel, i + 1, acc + [v], o.state, k - 1);
      var rest := Repeat(g, p, fuel, i + 1, o.state, k - 1).value.values;
      assert acc + [v] + rest == acc + ([v] + rest);
    } else {
      assert acc + [] == acc;
    }
  }

  /** The loop stopped cleanly after `k` successful attempts, with their results collected after `acc`. */
  predicate StoppedAfter(g: Grammar, p: Parser, fuel: nat, i: nat, acc: seq<Value>, s: Snapshot, o: Outcome, k: nat)
    requires p.Count?
  {
    && Repeat(g, p, fuel, i, s, k).Just?
    && Stops(g, p, fuel, i + k, Repeat(g, p, fuel, i, s, k).value.state)
    && o == Outcome(Ok(Collect(p.keep, acc + Repeat(g, p, fuel, i, s, k).value.values)), Repeat(g, p, fuel, i, s, k).value.state)
  }

  /** `k` attempts succeeded, and the next one, still under `min`, failed with the loop's own outcome. */
  predicate FailedAfter(g: Grammar, p: Parser, fuel: nat, i: nat, s: Snapshot, o: Outcome, k: nat)
    requires p.Count?
  {
    && Repeat(g, p, fuel, i, s, k).Just?
    && i + k < p.min && Below(i + k, p.max)
    && Run(g, p.inner, Repeat(g, p, fuel, i, s, k).value.state, fuel) == o
  }

  /** Every run of the loop is some number `k` of successful attempts followed by a clean stop, a
      parse error at an attempt before `min`, which escapes unchanged, or a fault. */
  lemma {:induction false} CountLoopCases(g: Grammar, p: Parser, fuel: nat, i: nat, acc: seq<Value>, s: Snapshot)
    requires p.Count?
    ensures var o := CountLoop(g, p, fuel, i, acc, s);
            && (o.reply.Ok? ==> exists k: nat :: StoppedAfter(g, p, fuel, i, acc, s, o, k))
            && (o.reply.Error? ==> exists k: nat :: FailedAfter(g, p, fuel, i, s, o, k))
    decreases fuel, p, 0, Rem(s), Budget(p.max, i)
  {
    var o := CountLoop(g, p, fuel, i, acc, s);
    assert Repeat(g, p, fuel, i, s, 0) == Just(Iter([], s));
    assert acc + [] == acc;
    if Below(i, p.max) {
      var o1 := Run(g, p.inner, s, fuel);
      if o1.reply.Ok? && !(o1.state.index == s.index && p.max.Infinity?) {
        var v := o1.reply.value;
        CountLoopCases(g, p, fuel, i + 1, acc + [v], o1.state);
        if o.reply.Ok? {
          var k: nat :| StoppedAfter(g, p, fuel, i + 1, acc + [v], o1.state, o, k);
          var rest := Repeat(g, p, fuel, i + 1, o1.state, k).value.values;
          assert Repeat(g, p, fuel, i, s, k + 1).value.values == [v] + rest;
          assert acc + [v] + rest == acc + ([v] + rest);
          assert StoppedAfter(g, p, fuel, i, acc, s, o, k + 1);
        }
        if o.reply.Error? {
          var k: nat :| FailedAfter(g, p, fuel, i + 1, o1.state, o, k);
          assert FailedAfter(g, p, fuel, i, s, o, k + 1);
        }
      } else {
        if o.reply.Ok? { assert StoppedAfter(g, p, fuel, i, acc, s, o, 0); }
        if o.reply.Error? { assert FailedAfter(g, p, fuel, i, s, o, 0); }
      }
    } else {
      assert StoppedAfter(g, p, fuel, i, acc, s, o, 0);
    }
  }

  /** The result of `count(min, max, p)`. On success: `k` attempts succeeded, `k` is at
      most `max` and at least `min` (or exactly `max` when `max < min`), the loop stopped
      because of the bound or because attempt `k` failed, the value is the `k` results
      (undefined for `skipCount`), and the cursor is where the `k`-th success left it.
      On a parse error: attempt number `k < min` failed after the `k` before it
      succeeded, and its error is the error of the whole loop, with the cursor where
      that attempt left it. */
  lemma CountOutcome(g: Grammar, min: nat, max: Bound, q: Parser, keep: bool, s: Snapshot, fuel: nat)
    ensures var p := Count(min, max, q, keep);
            var o := Run(g, p, s, fuel);
            && (o.reply.Ok? ==> exists k: nat :: CountedTo(g, p, fuel, s, o, k))
            && (o.reply.Error? ==> exists k: nat :: FailedAfter(g, p, fuel, 0, s, o, k))
  {
    var p := Count(min, max, q, keep);
    var o := Run(g, p, s, fuel);
    CountLoopCases(g, p, fuel, 0, [], s);
    if o.reply.Ok? {
      var k: nat :| StoppedAfter(g, p, fuel, 0, [], s, o, k);
      RepeatWithinBound(g, p, fuel, 0, s, k);
      CountLoopUnroll(g, p, fuel, 0, [], s, k);
      assert [] + Repeat(g, p, fuel, 0, s, k).value.values == Repeat(g, p, fuel, 0, s, k).value.values;
      assert CountedTo(g, p, fuel, s, o, k);
    }
  }

  /** `count` succeeded with `k` results, within its bounds, stopping for a reason. */
  predicate CountedTo(g: Grammar, p: Parser, fuel: nat, s: Snapshot, o: Outcome, k: nat)
    requires p.Count?
  {
    && Repeat(g, p, fuel, 0, s, k).Just?
    && (p.max.Finite? ==> k <= p.max.n)
    && (k >= p.min || (p.max.Finite? && k == p.max.n))
    && (!Below(k, p.max) || Run(g, p.inner, Repeat(g, p, fuel, 0, s, k).value.state, fuel).reply.Error?)
    && o.reply == Ok(Collect(p.keep, Repeat(g, p, fuel, 0, s, k).value.values))
    && (p.keep ==> |o.reply.value.vs| == k)
    && o.state == Repeat(g, p, fuel, 0, s, k).value.state
  }

  /** Successful attempts are all allowed by the upper bound. */
  lemma {:induction false} RepeatWithinBound(g: Grammar, p: Parser, fuel: nat, i: nat, s: Snapshot, k: nat)
    requires p.Count? && Repeat(g, p, fuel, i, s, k).Just?
    ensures p.max.Finite? && k > 0 ==> i + k <= p.max.n
    decreases k
  {
    if k > 0 {
      var o := Run(g, p.inner, s, fuel);
      RepeatWithinBound(g, p, fuel, i + 1, o.state, k - 1);
    }
  }

  /** The converse for errors: when the first `k < min` attempts succeed and the next
      one fails, that exact failure is what `count` throws. */
  lemma CountErrorPropagates(g: Grammar, min: nat, max: Bound, q: Parser, keep: bool, s: Snapshot, fuel: nat, k: nat)
    requires k < min && Below(k, max)
    requires Repeat(g, Count(min, max, q, keep), fuel, 0, s, k).Just?
    requires Run(g, q, Repeat(g, Count(min, max, q, keep), fuel, 0, s, k).value.state, fuel).reply.Error?
    ensures Run(g, Count(min, max, q, keep), s, fuel) ==
            Run(g, q, Repeat(g, Count(min, max, q, keep), fuel, 0, s, k).value.state, fuel)
  {
    var p := Count(min, max, q, keep);
    CountLoopUnroll(g, p, fuel, 0, [], s, k);
    var it := Repeat(g, p, fuel, 0, s, k).value;
    assert CountLoop(g, p, fuel, k, [] + it.values, it.state) == Run(g, q, it.state, fuel);
  }

  /** The converse for success: when `k` attempts succeed and the loop stops cleanly
      after them, `count` returns exactly their results at the cursor they left. */
  lemma CountSucceeds(g: Grammar, min: nat, max: Bound, q: Parser, keep: bool, s: Snapshot, fuel: nat, k: nat)
    requires Repeat(g, Count(min, max, q, keep), fuel, 0, s, k).Just?
    requires Stops(g, Count(min, max, q, keep), fuel, k, Repeat(g, Count(min, max, q, keep), fuel, 0, s, k).value.state)
    ensures var it := Repeat(g, Count(min, max, q, keep), fuel, 0, s, k).value;
            Run(g, Count(min, max, q, keep), s, fuel) == Outcome(Ok(Collect(keep, it.values)), it.state)
  {
    CountLoopUnroll(g, Count(min, max, q, keep), fuel, 0, [], s, k);
    assert [] + Repeat(g, Count(min, max, q, keep), fuel, 0, s, k).value.values
        == Repeat(g, Count(min, max, q, keep), fuel, 0, s, k).value.values;
  }

  /** With no minimum (`many`, `max`, `skipMany`, `skipMax`, `endBy`) the loop never throws a parse error. */
  lemma NoMinimumNeverFails(g: Grammar, max: Bound, q: Parser, keep: bool, s: Snapshot, fuel: nat)
    ensures !Run(g, Count(0, max, q, keep), s, fuel).reply.Error?
  {
    CountOutcome(g, 0, max, q, keep, s, fuel);
  }

  /** `times(n, p)` returns exactly `n` results or fails. */
  lemma TimesExact(g: Grammar, n: nat, q: Parser, s: Snapshot, fuel: nat)
    ensures var o := Run(g, Times(n, q), s, fuel);
            o.reply.Ok? ==> o.reply.value.Items? && |o.reply.value.vs| == n
  {
    CountOutcome(g, n, Finite(n), q, true, s, fuel);
  }

  /** `some(p)` fails exactly when the first attempt fails, and then with that attempt's error. */
  lemma SomeFailsOnFirst(g: Grammar, q: Parser, s: Snapshot, fuel: nat)
    ensures Run(g, Some(q), s, fuel).reply.Error? <==> Run(g, q, s, fuel).reply.Error?
    ensures Run(g, q, s, fuel).reply.Error? ==> Run(g, Some(q), s, fuel) == Run(g, q, s, fuel)
  {
    CountOutcome(g, 1, Infinity, q, true, s, fuel);
    if Run(g, q, s, fuel).reply.Error? {
      CountErrorPropagates(g, 1, Infinity, q, true, s, fuel, 0);
    }
  }

  /** `skipCount` consumes exactly what `count` does and fails the same way; it only drops the results. */
  lemma SkipCountLikeCount(g: Grammar, min: nat, max: Bound, q: Parser, s: Snapshot, fuel: nat)
    ensures var o := Run(g, SkipCount(min, max, q), s, fuel);
            var c := Run(g, Count(min, max, q, true), s, fuel);
            && o.state == c.state
            && (o.reply.Ok? <==> c.reply.Ok?)
            && (o.reply.Ok? ==> o.reply.value == Undefined)
            && (!o.reply.Ok? ==> o.reply == c.reply)
  {
    SkipLoopLikeCount(g, min, max, q, fuel, 0, [], [], s);
  }

  lemma {:induction false} SkipLoopLikeCount(g: Grammar, min: nat, max: Bound, q: Parser, fuel: nat, i: nat,
                                             acc: seq<Value>, acc': seq<Value>, s: Snapshot)
    ensures var o := CountLoop(g, Count(min, max, q, false), fuel, i, acc, s);
            var c := CountLoop(g, Count(min, max, q, true), fuel, i, acc', s);
            && o.state == c.state
            && (o.reply.Ok? <==> c.reply.Ok?)
            && (o.reply.Ok? ==> o.reply.value == Undefined)
            && (!o.reply.Ok? ==> o.reply == c.reply)
    decreases Rem(s), Budget(max, i)
  {
    if Below(i, max) {
      var o := Run(g, q, s, fuel);
      if o.reply.Ok? && !(o.state.index == s.index && max.Infinity?) {
        SkipLoopLikeCount(g, min, max, q, fuel, i + 1, acc + [o.reply.value], acc' + [o.reply.value], o.state);
      }
    }
  }
}
