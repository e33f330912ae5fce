/** The fuel that bounds rule dereferences is only a bound: a run that did not run
    out gives the same outcome with any more fuel. */
module Fuel {
  import opened Js
  import opened Cursor
  import opened Errors
  import opened Parsing

  lemma {:induction false} RunFuelMonotone(g: Grammar, p: Parser, s: Snapshot, fuel: nat, more: nat)
    requires fuel <= more && Run(g, p, s, fuel).reply != Fault(OutOfFuel)
    ensures Run(g, p, s, more) == Run(g, p, s, fuel)
    decreases fuel, p, 1, 0, 0
  {
    match p
    case Fail(_, _, _) =>
    case Empty =>
    case Literal(_) =>
    case Satisfy(_, _) =>
    case AnyChar =>
    case NotChar(_) =>
    case Named(_, q) => RunFuelMonotone(g, q, s, fuel, more);
    case Rule(name) => if name in g { RunFuelMonotone(g, g[name], s, fuel - 1, more - 1); }
    case Count(_, _, _, _) => CountLoopFuelMonotone(g, p, fuel, more, 0, [], s);
    case Skip(q) => RunFuelMonotone(g, q, s, fuel, more);
    case Option(_, q) => RunFuelMonotone(g, q, s, fuel, more);
    case Choice(_) => ChoiceLoopFuelMonotone(g, p, fuel, more, 0, Nothing, s);
    case Sequence(_) => SequenceLoopFuelMonotone(g, p, fuel, more, 0, [], s);
    case Seq(_, _) => SequenceLoopFuelMonotone(g, p, fuel, more, 0, [], s);
    case SepBy1(q, _) =>
      RunFuelMonotone(g, q, s, fuel, more);
      var o := Run(g, q, s, fuel);
      if o.reply.Ok? {
        SepByLoopFuelMonotone(g, p, fuel, more, [o.reply.value], o.state);
      }
    case ManyTill(_, _) => ManyTillLoopFuelMonotone(g, p, fuel, more, [], s);
    case NotFollowedBy(q) => RunFuelMonotone(g, q, s, fuel, more);
  }

  lemma {:induction false} CountLoopFuelMonotone(g: Grammar, p: Parser, fuel: nat, more: nat, i: nat, acc: seq<Value>, s: Snapshot)
    requires p.Count? && fuel <= more && CountLoop(g, p, fuel, i, acc, s).reply != Fault(OutOfFuel)
    ensures CountLoop(g, p, more, i, acc, s) == CountLoop(g, p, fuel, i, acc, s)
    decreases fuel, p, 0, Rem(s), Budget(p.max, i)
  {
    if Below(i, p.max) {
      var o := Run(g, p.inner, s, fuel);
      RunFuelMonotone(g, p.inner, s, fuel, more);
      if o.reply.Ok? && !(o.state.index == s.index && p.max.Infinity?) {
        CountLoopFuelMonotone(g, p, fuel, more, i + 1, acc + [o.reply.value], o.state);
      }
    }
  }

  lemma {:induction false} ChoiceLoopFuelMonotone(g: Grammar, p: Parser, fuel: nat, more: nat, i: nat, err: Maybe<ParseError>, s: Snapshot)
    requires p.Choice? && i <= |p.alternatives|
    requires fuel <= more && ChoiceLoop(g, p, fuel, i, err, s).reply != Fault(OutOfFuel)
    ensures ChoiceLoop(g, p, more, i, err, s) == ChoiceLoop(g, p, fuel, i, err, s)
    decreases fuel, p, 0, |p.alternatives| - i, 0
  {
    if i < |p.alternatives| {
      var o := Run(g, p.alternatives[i], s, fuel);
      RunFuelMonotone(g, p.alternatives[i], s, fuel, more);
      if o.reply.Error? {
        var merged := if err.Nothing? then Success(o.reply.err) else Merge(err.value, o.reply.err);
        if merged.Success? {
          ChoiceLoopFuelMonotone(g, p, fuel, more, i + 1, Just(merged.value), o.state);
        }
      }
    }
  }

  lemma {:induction false} SequenceLoopFuelMonotone(g: Grammar, p: Parser, fuel: nat, more: nat, i: nat, acc: seq<Value>, s: Snapshot)
    requires (p.Sequence? || p.Seq?) && i <= |p.steps|
    requires fuel <= more && SequenceLoop(g, p, fuel, i, acc, s).reply != Fault(OutOfFuel)
    ensures SequenceLoop(g, p, more, i, acc, s) == SequenceLoop(g, p, fuel, i, acc, s)
    decreases fuel, p, 0, |p.steps| - i, 0
  {
    if i < |p.steps| {
      var o := Run(g, p.steps[i], s, fuel);
      RunFuelMonotone(g, p.steps[i], s, fuel, more);
      if o.reply.Ok? {
        SequenceLoopFuelMonotone(g, p, fuel, more, i + 1, acc + [o.reply.value], o.state);
      }
    }
  }

  lemma {:induction false} SepByLoopFuelMonotone(g: Grammar, p: Parser, fuel: nat, more: nat, acc: seq<Value>, s: Snapshot)
    requires p.SepBy1? && fuel <= more && SepByLoop(g, p, fuel, acc, s).reply != Fault(OutOfFuel)
    ensures SepByLoop(g, p, more, acc, s) == SepByLoop(g, p, fuel, acc, s)
    decreases fuel, p, 0, Rem(s), 0
  {
    var o1 := Run(g, p.sep, s, fuel);
    RunFuelMonotone(g, p.sep, s, fuel, more);
    if o1.reply.Ok? {
      var o2 := Run(g, p.item, o1.state, fuel);
      RunFuelMonotone(g, p.item, o1.state, fuel, more);
      if o2.reply.Ok? && o2.state.index != s.index {
        SepByLoopFuelMonotone(g, p, fuel, more, acc + [o2.reply.value], o2.state);
      }
    }
  }

  lemma {:induction false} ManyTillLoopFuelMonotone(g: Grammar, p: Parser, fuel: nat, more: nat, acc: seq<Value>, s: Snapshot)
    requires p.ManyTill? && fuel <= more && ManyTillLoop(g, p, fuel, acc, s).reply != Fault(OutOfFuel)
    ensures ManyTillLoop(g, p, more, acc, s) == ManyTillLoop(g, p, fuel, acc, s)
    decreases fuel, p, 0, Rem(s), 0
  {
    var oe := Run(g, p.terminator, s, fuel);
    RunFuelMonotone(g, p.terminator, s, fuel, more);
    if oe.reply.Error? {
      var oi := Run(g, p.item, s, fuel);
      RunFuelMonotone(g, p.item, s, fuel, more);
      if oi.reply.Ok? && oi.state.index != s.index {
        ManyTillLoopFuelMonotone(g, p, fuel, more, acc + [oi.reply.value], oi.state);
      }
    }
  }
}
