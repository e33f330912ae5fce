/** What every run does to the cursor: it only ever moves forward over the text
    it consumed, with line and column recomputed over exactly that text, and the
    errors it reports belong to the file being parsed. */
module Progress {
  import opened Js
  import opened Cursor
  import opened Errors
  import opened Parsing

  /** Advancing over text that matches the source at the cursor is reaching a later cursor. */
  lemma MatchReaches(s: Snapshot, str: string)
    requires MatchesAt(s, str)
    ensures Reaches(s, Advance(s, str))
  {
    if str != [] {
      assert Peek(s, 0) == [str[0]];
      assert Peek(s, |str| - 1) == [str[|str| - 1]];
      assert s.source[s.index..s.index + |str|] == str by {
        forall i | 0 <= i < |str| ensures s.source[s.index + i] == str[i] {
          assert Peek(s, i) == [str[i]];
        }
      }
    }
  }

  /** What the cursor shows is always text that matches there. */
  lemma PeekMatches(s: Snapshot)
    ensures MatchesAt(s, Peek(s, 0))
  {
  }

  lemma PeekReaches(s: Snapshot)
    ensures Reaches(s, Advance(s, Peek(s, 0)))
  {
    PeekMatches(s);
    MatchReaches(s, Peek(s, 0));
  }

  lemma PrimitiveReaches(g: Grammar, p: Parser, s: Snapshot, fuel: nat)
    requires p.Fail? || p.Empty? || p.Literal? || p.Satisfy? || p.AnyChar? || p.NotChar?
    ensures Reaches(s, Run(g, p, s, fuel).state)
  {
    match p
    case Literal(str) => if MatchesAt(s, str) { MatchReaches(s, str); }
    case Satisfy(_, _) => PeekReaches(s);
    case AnyChar => PeekReaches(s);
    case NotChar(_) => PeekReaches(s);
    case _ =>
  }

  /** Every run leaves the cursor where scanning the consumed text from the start
      cursor puts it, so a cursor whose line and column agree with its offset keeps
      them in agreement. */
  lemma {:induction false} RunReaches(g: Grammar, p: Parser, s: Snapshot, fuel: nat)
    ensures Reaches(s, Run(g, p, s, fuel).state)
    decreases fuel, p, 2, 0, 0
  {
    if p.Fail? || p.Empty? || p.Literal? || p.Satisfy? || p.AnyChar? || p.NotChar? {
      PrimitiveReaches(g, p, s, fuel);
    } else if p.Count? || p.Choice? || p.Sequence? || p.Seq? || p.ManyTill? {
      LoopReaches(g, p, s, fuel);
    } else {
      WrapperReaches(g, p, s, fuel);
    }
  }

  lemma {:induction false} LoopReaches(g: Grammar, p: Parser, s: Snapshot, fuel: nat)
    requires p.Count? || p.Choice? || p.Sequence? || p.Seq? || p.ManyTill?
    ensures Reaches(s, Run(g, p, s, fuel).state)
    decreases fuel, p, 1, 0, 0
  {
    match p
    case Count(_, _, _, _) => CountLoopReaches(g, p, fuel, 0, [], s);
    case Choice(_) => ChoiceLoopReaches(g, p, fuel, 0, Nothing, s);
    case Sequence(_) => SequenceLoopReaches(g, p, fuel, 0, [], s);
    case Seq(_, _) => SequenceLoopReaches(g, p, fuel, 0, [], s);
    case ManyTill(_, _) => ManyTillLoopReaches(g, p, fuel, [], s);
  }

  lemma {:induction false} WrapperReaches(g: Grammar, p: Parser, s: Snapshot, fuel: nat)
    requires p.Named? || p.Rule? || p.Skip? || p.Option? || p.SepBy1? || p.NotFollowedBy?
    ensures Reaches(s, Run(g, p, s, fuel).state)
    decreases fuel, p, 1, 0, 0
  {
    match p
    case Named(_, q) => RunReaches(g, q, s, fuel);
    case Rule(name) => if name in g && fuel > 0 { RunReaches(g, g[name], s, fuel - 1); }
    case Skip(q) => RunReaches(g, q, s, fuel);
    case Option(_, q) => RunReaches(g, q, s, fuel);
    case SepBy1(q, _) =>
      var o := Run(g, q, s, fuel);
      RunReaches(g, q, s, fuel);
      if o.reply.Ok? {
        SepByLoopReaches(g, p, fuel, [o.reply.value], o.state);
        ReachesTransitive(s, o.state, SepByLoop(g, p, fuel, [o.reply.value], o.state).state);
      }
    case NotFollowedBy(q) => RunReaches(g, q, s, fuel);
  }

  lemma {:induction false} CountLoopReaches(g: Grammar, p: Parser, fuel: nat, i: nat, acc: seq<Value>, s: Snapshot)
    requires p.Count?
    ensures Reaches(s, CountLoop(g, p, fuel, i, acc, s).state)
    decreases fuel, p, 0, Rem(s), Budget(p.max, i)
  {
    if Below(i, p.max) {
      var o := Run(g, p.inner, s, fuel);
      RunReaches(g, p.inner, s, fuel);
      if o.reply.Ok? && !(o.state.index == s.index && p.max.Infinity?) {
        CountLoopReaches(g, p, fuel, i + 1, acc + [o.reply.value], o.state);
        ReachesTransitive(s, o.state, CountLoop(g, p, fuel, i + 1, acc + [o.reply.value], o.state).state);
      }
    }
  }

  lemma {:induction false} ChoiceLoopReaches(g: Grammar, p: Parser, fuel: nat, i: nat, err: Maybe<ParseError>, s: Snapshot)
    requires p.Choice? && i <= |p.alternatives|
    ensures Reaches(s, ChoiceLoop(g, p, fuel, i, err, s).state)
    decreases fuel, p, 0, |p.alternatives| - i, 0
  {
    if i < |p.alternatives| {
      var o := Run(g, p.alternatives[i], s, fuel);
      RunReaches(g, p.alternatives[i], s, fuel);
      if o.reply.Error? {
        var merged := if err.Nothing? then Success(o.reply.err) else Merge(err.value, o.reply.err);
        if merged.Success? {
          ChoiceLoopReaches(g, p, fuel, i + 1, Just(merged.value), o.state);
          ReachesTransitive(s, o.state, ChoiceLoop(g, p, fuel, i + 1, Just(merged.value), o.state).state);
        }
      }
    }
  }

  lemma {:induction false} SequenceLoopReaches(g: Grammar, p: Parser, fuel: nat, i: nat, acc: seq<Value>, s: Snapshot)
    requires (p.Sequence? || p.Seq?) && i <= |p.steps|
    ensures Reaches(s, SequenceLoop(g, p, fuel, i, acc, s).state)
    decreases fuel, p, 0, |p.steps| - i, 0
  {
    if i < |p.steps| {
      var o := Run(g, p.steps[i], s, fuel);
      RunReaches(g, p.steps[i], s, fuel);
      if o.reply.Ok? {
        SequenceLoopReaches(g, p, fuel, i + 1, acc + [o.reply.value], o.state);
        ReachesTransitive(s, o.state, SequenceLoop(g, p, fuel, i + 1, acc + [o.reply.value], o.state).state);
      }
    }
  }

  lemma {:induction false} SepByLoopReaches(g: Grammar, p: Parser, fuel: nat, acc: seq<Value>, s: Snapshot)
    requires p.SepBy1?
    ensures Reaches(s, SepByLoop(g, p, fuel, acc, s).state)
    decreases fuel, p, 0, Rem(s), 0
  {
    var o1 := Run(g, p.sep, s, fuel);
    RunReaches(g, p.sep, s, fuel);
    if o1.reply.Ok? {
      var o2 := Run(g, p.item, o1.state, fuel);
      RunReaches(g, p.item, o1.state, fuel);
      ReachesTransitive(s, o1.state, o2.state);
      if o2.reply.Ok? && o2.state.index != s.index {
        SepByLoopReaches(g, p, fuel, acc + [o2.reply.value], o2.state);
        ReachesTransitive(s, o2.state, SepByLoop(g, p, fuel, acc + [o2.reply.value], o2.state).state);
      }
    }
  }

  lemma {:induction false} ManyTillLoopReaches(g: Grammar, p: Parser, fuel: nat, acc: seq<Value>, s: Snapshot)
    requires p.ManyTill?
    ensures Reaches(s, ManyTillLoop(g, p, fuel, acc, s).state)
    decreases fuel, p, 0, Rem(s), 0
  {
    var oe := Run(g, p.terminator, s, fuel);
    RunReaches(g, p.terminator, s, fuel);
    if oe.reply.Error? {
      var oi := Run(g, p.item, s, fuel);
      RunReaches(g, p.item, s, fuel);
      if oi.reply.Ok? && oi.state.index != s.index {
        ManyTillLoopReaches(g, p, fuel, acc + [oi.reply.value], oi.state);
        ReachesTransitive(s, oi.state, ManyTillLoop(g, p, fuel, acc + [oi.reply.value], oi.state).state);
      }
    }
  }

  /** A parse that starts from a cursor whose line and column agree with its offset ends at one too. */
  lemma RunKeepsConsistent(g: Grammar, p: Parser, s: Snapshot, fuel: nat)
    requires Consistent(s)
    ensures Consistent(Run(g, p, s, fuel).state)
  {
    RunReaches(g, p, s, fuel);
    ReachesTransitive(Start(s.source, s.filename), s, Run(g, p, s, fuel).state);
  }

  /** A success that consumed nothing left the cursor exactly as it found it, so a
      repetition would make the very same attempt again, forever: this is what the
      `Loops` verdict stands for. */
  lemma StuckSuccessRepeats(g: Grammar, p: Parser, s: Snapshot, fuel: nat)
    requires Run(g, p, s, fuel).reply.Ok? && Run(g, p, s, fuel).state.index == s.index
    ensures Run(g, p, s, fuel).state == s
    ensures Run(g, p, Run(g, p, s, fuel).state, fuel) == Run(g, p, s, fuel)
  {
    RunReaches(g, p, s, fuel);
  }

  /** An error of the run's own file and text, at or after where the run started, or
      the position-less error of `empty`, whose offset is -1. */
  predicate Local(e: ParseError, s: Snapshot)
  {
    e.filename == s.filename && e.source == s.source && (e.index >= s.index || e.index == -1)
  }

  const MergeFault := Thrown("cannot merge parse errors created by different files.")

  /** Every error a run reports is about the file being parsed and stands no earlier
      than where the run started (or is `empty`'s error, at -1), so the merges of
      `choice` never meet two files and never throw. */
  lemma {:induction false} RunErrorsLocal(g: Grammar, p: Parser, s: Snapshot, fuel: nat)
    ensures Run(g, p, s, fuel).reply.Error? ==> Local(Run(g, p, s, fuel).reply.err, s)
    ensures Run(g, p, s, fuel).reply != Fault(MergeFault)
    decreases fuel, p, 2, 0, 0
  {
    if p.Fail? || p.Empty? || p.Literal? || p.Satisfy? || p.AnyChar? || p.NotChar? {
      assert Run(g, p, s, fuel).reply.Error? ==> Local(Run(g, p, s, fuel).reply.err, s);
    } else if p.Count? || p.Choice? || p.Sequence? || p.Seq? || p.ManyTill? {
      LoopErrorsLocal(g, p, s, fuel);
    } else {
      WrapperErrorsLocal(g, p, s, fuel);
    }
  }

  lemma {:induction false} LoopErrorsLocal(g: Grammar, p: Parser, s: Snapshot, fuel: nat)
    requires p.Count? || p.Choice? || p.Sequence? || p.Seq? || p.ManyTill?
    ensures Run(g, p, s, fuel).reply.Error? ==> Local(Run(g, p, s, fuel).reply.err, s)
    ensures Run(g, p, s, fuel).reply != Fault(MergeFault)
    decreases fuel, p, 1, 0, 0
  {
    match p
    case Count(_, _, _, _) => CountLoopErrorsLocal(g, p, fuel, 0, [], s);
    case Choice(_) => ChoiceLoopErrorsLocal(g, p, fuel, 0, Nothing, s, s);
    case Sequence(_) => SequenceLoopErrorsLocal(g, p, fuel, 0, [], s);
    case Seq(_, _) => SequenceLoopErrorsLocal(g, p, fuel, 0, [], s);
    case ManyTill(_, _) => ManyTillLoopErrorsLocal(g, p, fuel, [], s);
  }

  lemma {:induction false} WrapperErrorsLocal(g: Grammar, p: Parser, s: Snapshot, fuel: nat)
    requires p.Named? || p.Rule? || p.Skip? || p.Option? || p.SepBy1? || p.NotFollowedBy?
    ensures Run(g, p, s, fuel).reply.Error? ==> Local(Run(g, p, s, fuel).reply.err, s)
    ensures Run(g, p, s, fuel).reply != Fault(MergeFault)
    decreases fuel, p, 1, 0, 0
  {
    match p
    case Named(_, q) => RunErrorsLocal(g, q, s, fuel);
    case Rule(name) => if name in g && fuel > 0 { RunErrorsLocal(g, g[name], s, fuel - 1); }
    case Skip(q) => RunErrorsLocal(g, q, s, fuel);
    case Option(_, q) => RunErrorsLocal(g, q, s, fuel);
    case SepBy1(q, _) =>
      var o := Run(g, q, s, fuel);
      RunErrorsLocal(g, q, s, fuel);
      if o.reply.Ok? {
        SepByLoopErrorsLocal(g, p, fuel, [o.reply.value], o.state);
      }
    case NotFollowedBy(q) => RunErrorsLocal(g, q, s, fuel);
  }

  lemma {:induction false} CountLoopErrorsLocal(g: Grammar, p: Parser, fuel: nat, i: nat, acc: seq<Value>, s: Snapshot)
    requires p.Count?
    ensures CountLoop(g, p, fuel, i, acc, s).reply.Error? ==> Local(CountLoop(g, p, fuel, i, acc, s).reply.err, s)
    ensures CountLoop(g, p, fuel, i, acc, s).reply != Fault(MergeFault)
    decreases fuel, p, 0, Rem(s), Budget(p.max, i)
  {
    if Below(i, p.max) {
      var o := Run(g, p.inner, s, fuel);
      RunErrorsLocal(g, p.inner, s, fuel);
      if o.reply.Ok? && !(o.state.index == s.index && p.max.Infinity?) {
        CountLoopErrorsLocal(g, p, fuel, i + 1, acc + [o.reply.value], o.state);
      }
    }
  }

  /** The loop of a choice started at `s0`, now at `s`. */
  lemma {:induction false} ChoiceLoopErrorsLocal(g: Grammar, p: Parser, fuel: nat, i: nat, err: Maybe<ParseError>, s0: Snapshot, s: Snapshot)
    requires p.Choice? && i <= |p.alternatives| && Forward(s0, s)
    requires err.Just? ==> Local(err.value, s0)
    ensures ChoiceLoop(g, p, fuel, i, err, s).reply.Error? ==> Local(ChoiceLoop(g, p, fuel, i, err, s).reply.err, s0)
    ensures ChoiceLoop(g, p, fuel, i, err, s).reply != Fault(MergeFault)
    decreases fuel, p, 0, |p.alternatives| - i, 0
  {
    if i < |p.alternatives| {
      var o := Run(g, p.alternatives[i], s, fuel);
      RunErrorsLocal(g, p.alternatives[i], s, fuel);
      if o.reply.Error? {
        var merged := if err.Nothing? then Success(o.reply.err) else Merge(err.value, o.reply.err);
        assert merged.Success? && Local(merged.value, s0);
        ChoiceLoopErrorsLocal(g, p, fuel, i + 1, Just(merged.value), s0, o.state);
      }
    }
  }

  lemma {:induction false} SequenceLoopErrorsLocal(g: Grammar, p: Parser, fuel: nat, i: nat, acc: seq<Value>, s: Snapshot)
    requires (p.Sequence? || p.Seq?) && i <= |p.steps|
    ensures SequenceLoop(g, p, fuel, i, acc, s).reply.Error? ==> Local(SequenceLoop(g, p, fuel, i, acc, s).reply.err, s)
    ensures SequenceLoop(g, p, fuel, i, acc, s).reply != Fault(MergeFault)
    decreases fuel, p, 0, |p.steps| - i, 0
  {
    if i < |p.steps| {
      var o := Run(g, p.steps[i], s, fuel);
      RunErrorsLocal(g, p.steps[i], s, fuel);
      if o.reply.Ok? {
        SequenceLoopErrorsLocal(g, p, fuel, i + 1, acc + [o.reply.value], o.state);
      }
    }
  }

  lemma {:induction false} SepByLoopErrorsLocal(g: Grammar, p: Parser, fuel: nat, acc: seq<Value>, s: Snapshot)
    requires p.SepBy1?
    ensures SepByLoop(g, p, fuel, acc, s).reply.Error? ==> Local(SepByLoop(g, p, fuel, acc, s).reply.err, s)
    ensures SepByLoop(g, p, fuel, acc, s).reply != Fault(MergeFault)
    decreases fuel, p, 0, Rem(s), 0
  {
    var o1 := Run(g, p.sep, s, fuel);
    RunErrorsLocal(g, p.sep, s, fuel);
    if o1.reply.Ok? {
      var o2 := Run(g, p.item, o1.state, fuel);
      RunErrorsLocal(g, p.item, o1.state, fuel);
      if o2.reply.Ok? && o2.state.index != s.index {
        SepByLoopErrorsLocal(g, p, fuel, acc + [o2.reply.value], o2.state);
      }
    }
  }

  lemma {:induction false} ManyTillLoopErrorsLocal(g: Grammar, p: Parser, fuel: nat, acc: seq<Value>, s: Snapshot)
    requires p.ManyTill?
    ensures ManyTillLoop(g, p, fuel, acc, s).reply.Error? ==> Local(ManyTillLoop(g, p, fuel, acc, s).reply.err, s)
    ensures ManyTillLoop(g, p, fuel, acc, s).reply != Fault(MergeFault)
    decreases fuel, p, 0, Rem(s), 0
  {
    var oe := Run(g, p.terminator, s, fuel);
    RunErrorsLocal(g, p.terminator, s, fuel);
    if oe.reply.Error? {
      var oi := Run(g, p.item, s, fuel);
      RunErrorsLocal(g, p.item, s, fuel);
      if oi.reply.Ok? && oi.state.index != s.index {
        ManyTillLoopErrorsLocal(g, p, fuel, acc + [oi.reply.value], oi.state);
      }
    }
  }
}
