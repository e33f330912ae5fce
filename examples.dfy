/** Worked runs on small inputs, from a fresh cursor as `parseString` creates it
    (offset 0, line 1, column 1, file "<string>"). */
module Examples {
  import opened Js
  import opened Cursor
  import opened Errors
  import opened Parsing
  import opened CombinatorLaws

  const NoRules: Grammar := map[]

  /** The cursor `parseString` starts from. */
  function Fresh(source: string): Snapshot { Start(source, "<string>") }

  /** A one-character literal that is at the cursor, on one line. */
  lemma CharMatches(g: Grammar, s: Snapshot, c: char, fuel: nat)
    requires 0 <= s.index < |s.source| && s.source[s.index] == c && c != '\n'
    ensures Run(g, Literal([c]), s, fuel) == Outcome(Ok(Text([c])), s.(index := s.index + 1, column := s.column + 1))
  {
    assert Peek(s, 0) == [c];
    assert MatchesAt(s, [c]);
    var t := s.(index := s.index + 1);
    assert [c][..0] == [];
    assert Walk(t, [c]) == Step(Walk(t, []), c);
  }

  /** A literal whose first character is not the one at the cursor. */
  lemma FirstCharMismatch(g: Grammar, s: Snapshot, str: string, fuel: nat)
    requires str != [] && !(0 <= s.index < |s.source| && s.source[s.index] == str[0])
    ensures Run(g, Literal(str), s, fuel) == Outcome(Error(ErrorAt(s, "", [Quote(str)], Undefined)), s)
  {
    assert !MatchesAt(s, str) by { assert Peek(s, 0) != [str[0]]; }
  }

  /** `choice(a, b)` where `a` fails: `b` runs from where `a` left the cursor. */
  lemma ChoiceOfTwoSecond(g: Grammar, a: Parser, b: Parser, s: Snapshot, s1: Snapshot, ea: ParseError, fuel: nat)
    requires Run(g, a, s, fuel) == Outcome(Error(ea), s1) && !Run(g, b, s1, fuel).reply.Error?
    ensures Run(g, Choice([a, b]), s, fuel) == Run(g, b, s1, fuel)
  {
    var p := Choice([a, b]);
    assert p.alternatives[0] == a && p.alternatives[1] == b;
    assert ChoiceLoop(g, p, fuel, 0, Nothing, s) == ChoiceLoop(g, p, fuel, 1, Just(ea), s1);
  }

  /** `choice(a, b)` where both fail: the merge of their errors, at the cursor `b` left. */
  lemma ChoiceOfTwoFail(g: Grammar, a: Parser, b: Parser, s: Snapshot, s1: Snapshot, s2: Snapshot,
                        ea: ParseError, eb: ParseError, fuel: nat)
    requires Run(g, a, s, fuel) == Outcome(Error(ea), s1) && Run(g, b, s1, fuel) == Outcome(Error(eb), s2)
    requires Merge(ea, eb).Success?
    ensures Run(g, Choice([a, b]), s, fuel) == Outcome(Error(Merge(ea, eb).value), s2)
  {
    var p := Choice([a, b]);
    assert p.alternatives[0] == a && p.alternatives[1] == b;
    assert ChoiceLoop(g, p, fuel, 0, Nothing, s) == ChoiceLoop(g, p, fuel, 1, Just(ea), s1);
    assert ChoiceLoop(g, p, fuel, 1, Just(ea), s1) == ChoiceLoop(g, p, fuel, 2, Just(Merge(ea, eb).value), s2);
  }

  /** `sequence(a, b)` where `a` succeeds and `b` does not: the outcome of `b`. */
  lemma SequenceOfTwoStops(g: Grammar, a: Parser, b: Parser, s: Snapshot, s1: Snapshot, va: Value, fuel: nat)
    requires Run(g, a, s, fuel) == Outcome(Ok(va), s1) && !Run(g, b, s1, fuel).reply.Ok?
    ensures Run(g, Sequence([a, b]), s, fuel) == Run(g, b, s1, fuel)
  {
    var p := Sequence([a, b]);
    assert p.steps[0] == a && p.steps[1] == b;
    assert SequenceLoop(g, p, fuel, 0, [], s) == SequenceLoop(g, p, fuel, 1, [] + [va], s1);
  }

  /** `sequence(a, b, c)` where all three succeed, one after the other. */
  lemma SequenceOfThree(g: Grammar, a: Parser, b: Parser, c: Parser, s: Snapshot, s1: Snapshot, s2: Snapshot, s3: Snapshot,
                        va: Value, vb: Value, vc: Value, fuel: nat)
    requires Run(g, a, s, fuel) == Outcome(Ok(va), s1) && Run(g, b, s1, fuel) == Outcome(Ok(vb), s2)
    requires Run(g, c, s2, fuel) == Outcome(Ok(vc), s3)
    ensures Run(g, Sequence([a, b, c]), s, fuel) == Outcome(Ok(Items([va, vb, vc])), s3)
  {
    var p := Sequence([a, b, c]);
    assert p.steps[0] == a && p.steps[1] == b && p.steps[2] == c;
    var vs := [va, vb, vc];
    assert [] + [va] == vs[..1] && vs[..1] + [vb] == vs[..2] && vs[..2] + [vc] == vs;
    assert SequenceLoop(g, p, fuel, 0, [], s) == SequenceLoop(g, p, fuel, 1, vs[..1], s1);
    assert SequenceLoop(g, p, fuel, 1, vs[..1], s1) == SequenceLoop(g, p, fuel, 2, vs[..2], s2);
    assert SequenceLoop(g, p, fuel, 2, vs[..2], s2) == SequenceLoop(g, p, fuel, 3, vs, s3);
  }

  /** `choice(string("x"), string("y"))` takes "y". */
  lemma ChoiceTakesSecond(s: Snapshot)
    requires s == Fresh("y")
    ensures Run(NoRules, Choice([Literal("x"), Literal("y")]), s, 0)
            == Outcome(Ok(Text("y")), Snapshot("y", 1, "<string>", 1, 2))
  {
    FirstCharMismatch(NoRules, s, "x", 0);
    CharMatches(NoRules, s, 'y', 0);
    ChoiceOfTwoSecond(NoRules, Literal("x"), Literal("y"), s, s, ErrorAt(s, "", [Quote("x")], Undefined), 0);
  }

  /** On "z" it fails at offset 0, expecting both literals. */
  lemma ChoiceFailsWithBoth(z: Snapshot)
    requires z == Fresh("z")
    ensures var o := Run(NoRules, Choice([Literal("x"), Literal("y")]), z, 0);
            && o.state == z && o.reply.Error?
            && o.reply.err.index == 0
            && o.reply.err.expecteds == ["\"x\"", "\"y\""]
  {
    FirstCharMismatch(NoRules, z, "x", 0);
    FirstCharMismatch(NoRules, z, "y", 0);
    assert Quote("x") == "\"x\"" && Quote("y") == "\"y\"";
    var ex := ErrorAt(z, "", ["\"x\""], Undefined);
    var ey := ErrorAt(z, "", ["\"y\""], Undefined);
    assert ["\"x\""] + ["\"y\""] == ["\"x\"", "\"y\""];
    assert Merge(ex, ey) == Success(ex.(expecteds := ["\"x\"", "\"y\""]));
    ChoiceOfTwoFail(NoRules, Literal("x"), Literal("y"), z, z, z, ex, ey, 0);
  }

  /** The message of that error lists both literals. */
  lemma ChoiceMessage(e: ParseError)
    requires e.message == "" && e.filename == "<string>" && e.line == 1
    requires e.expecteds == ["\"x\"", "\"y\""] && e.unexpected == Undefined
    ensures Message(e) == "<string>:1: expected \"x\" and \"y\""
  {
    MessageUnfoldXY(e);
    NormalizedXY();
    DescribeXY();
    OneToString();
    PrefixXY();
  }

  // Proof steps of ChoiceMessage: the getter unfolded, and the pieces of the text.

  lemma MessageUnfoldXY(e: ParseError)
    requires e.message == "" && e.filename == "<string>" && e.line == 1
    requires e.expecteds == ["\"x\"", "\"y\""] && e.unexpected == Undefined
    ensures Message(e) == "<string>" + ":" + IntToString(1) + ": " + Describe(Normalized(["\"x\"", "\"y\""]), Undefined)
  {
  }

  lemma OneToString()
    ensures IntToString(1) == "1"
  {
  }

  lemma PrefixXY()
    ensures "<string>" + ":" + "1" + ": " + "expected \"x\" and \"y\"" == "<string>:1: expected \"x\" and \"y\""
  {
  }

  lemma DescribeXY()
    ensures Describe(["\"x\"", "\"y\""], Undefined) == "expected \"x\" and \"y\""
  {
    var labels := ["\"x\"", "\"y\""];
    assert !Truthy(Undefined);
    assert labels[..1] == ["\"x\""];
    assert Join(labels[..1], ", ") == "\"x\"";
    assert JoinAnd(labels) == "\"x\"" + " and " + "\"y\"";
  }

  lemma NormalizedXY()
    ensures Normalized(["\"x\"", "\"y\""]) == ["\"x\"", "\"y\""]
  {
    assert LexLeq("\"x\"", "\"y\"") by { assert "\"x\""[1..] == "x\"" && "\"y\""[1..] == "y\""; }
    assert Sorted(["\"x\"", "\"y\""]);
    SortedDistinctUnique(Normalized(["\"x\"", "\"y\""]), ["\"x\"", "\"y\""]);
  }

  /** `option('x', string('a'))` on "b" returns 'x' and leaves the cursor at offset 0. */
  lemma OptionFallsBack(s: Snapshot)
    requires s == Fresh("b")
    ensures Run(NoRules, Option(Text("x"), Literal("a")), s, 0) == Outcome(Ok(Text("x")), s)
  {
    FirstCharMismatch(NoRules, s, "a", 0);
  }

  /** `manyTill(any, string(end))`, where `end` is the two characters that close a C
      comment, on "a b" followed by `end`: it returns the three characters before the
      terminator, and the cursor ends after the terminator. */
  lemma ManyTillComment(s: Snapshot)
    requires s == Fresh("a b*/")
    ensures var o := Run(NoRules, ManyTill(AnyChar, Literal("*/")), s, 0);
            o.reply == Ok(Items([Text("a"), Text(" "), Text("b")])) && o.state.index == 5 && o.state.column == 6
  {
    assert s == At(0);
    ManyTillStarts(NoRules, AnyChar, Literal("*/"), At(0), 0);
    CommentLoop(ManyTill(AnyChar, Literal("*/")));
  }

  /** The loop over the three characters and the terminator. The parser is a
      parameter so that the solver does not unfold the loop on its own. */
  lemma CommentLoop(p: Parser)
    requires p == ManyTill(AnyChar, Literal("*/"))
    ensures ManyTillLoop(NoRules, p, 0, [], At(0))
            == Outcome(Ok(Items([Text("a"), Text(" "), Text("b")])), At(5))
  {
    var a2 := [Text("a"), Text(" ")];
    CommentFirstTwo(p, []);
    assert [] + a2 == a2;
    CommentLast(p, a2);
    assert a2 + [Text("b")] == [Text("a"), Text(" "), Text("b")];
  }

  /** Proof step of CommentLoop: the first two rounds. */
  lemma CommentFirstTwo(p: Parser, acc: seq<Value>)
    requires p == ManyTill(AnyChar, Literal("*/"))
    ensures ManyTillLoop(NoRules, p, 0, acc, At(0)) == ManyTillLoop(NoRules, p, 0, acc + [Text("a"), Text(" ")], At(2))
  {
    CommentStep(p, acc, acc + [Text("a")], 0, 'a');
    assert acc + [Text("a")] + [Text(" ")] == acc + [Text("a"), Text(" ")];
    CommentStep(p, acc + [Text("a")], acc + [Text("a"), Text(" ")], 1, ' ');
  }

  /** Proof step of CommentLoop: the third round and the terminator. */
  lemma CommentLast(p: Parser, acc: seq<Value>)
    requires p == ManyTill(AnyChar, Literal("*/"))
    ensures ManyTillLoop(NoRules, p, 0, acc, At(2)) == Outcome(Ok(Items(acc + [Text("b")])), At(5))
  {
    CommentStep(p, acc, acc + [Text("b")], 2, 'b');
    CommentEnd(p, acc + [Text("b")]);
  }

  /** `manyTill` enters its loop with nothing collected. */
  lemma ManyTillStarts(g: Grammar, q: Parser, end: Parser, s: Snapshot, fuel: nat)
    ensures Run(g, ManyTill(q, end), s, fuel) == ManyTillLoop(g, ManyTill(q, end), fuel, [], s)
  {
  }

  /** Proof step of CommentLast: the terminator matches at offset 3 and is consumed. */
  lemma CommentEnd(p: Parser, acc: seq<Value>)
    requires p == ManyTill(AnyChar, Literal("*/"))
    ensures ManyTillLoop(NoRules, p, 0, acc, At(3)) == Outcome(Ok(Items(acc)), At(5))
  {
    var s3 := At(3);
    assert Peek(s3, 0) == "*" && Peek(s3, 1) == "/";
    assert MatchesAt(s3, "*/");
    assert Advance(s3, "*/") == At(5) by {
      var t := s3.(index := 5);
      assert "*/"[..1] == "*" && "*"[..0] == [];
      assert Walk(t, "*") == Step(Walk(t, []), '*') == t.(column := 5);
      assert Walk(t, "*/") == Step(Walk(t, "*"), '/');
    }
    assert Run(NoRules, Literal("*/"), s3, 0) == Outcome(Ok(Text("*/")), At(5));
  }

  /** The cursor at offset `k` of the one-line input "a b" followed by the terminator,
      used by the proof steps of ManyTillComment. */
  function At(k: nat): Snapshot { Snapshot("a b*/", k, "<string>", 1, k + 1) }

  /** Proof step of CommentFirstTwo and CommentLast. One round of the loop: at offset `k` of "a b" the terminator fails and the character `c` is taken. */
  lemma CommentStep(p: Parser, acc: seq<Value>, next: seq<Value>, k: nat, c: char)
    requires p == ManyTill(AnyChar, Literal("*/"))
    requires k < 3 && "a b*/"[k] == c && next == acc + [Text([c])]
    ensures ManyTillLoop(NoRules, p, 0, acc, At(k)) == ManyTillLoop(NoRules, p, 0, next, At(k + 1))
  {
    var s := At(k);
    assert c == 'a' || c == ' ' || c == 'b';
    assert Peek(s, 0) == [c];
    assert !MatchesAt(s, "*/");
    assert Advance(s, [c]) == At(k + 1) by {
      var t := s.(index := k + 1);
      assert [c][..0] == [];
      assert Walk(t, [c]) == Step(Walk(t, []), c);
    }
    assert Run(NoRules, AnyChar, s, 0) == Outcome(Ok(Text([c])), At(k + 1));
  }

  /** `sequence(string("x"), string("y"))` on "xz" fails at offset 1 expecting "y"; the
      "x" stays consumed. The unexpected token of a literal's error is undefined. */
  lemma SequenceStopsAtMismatch(s0: Snapshot)
    requires s0 == Fresh("xz")
    ensures var o := Run(NoRules, Sequence([Literal("x"), Literal("y")]), s0, 0);
            && o.state.index == 1 && o.reply.Error?
            && o.reply.err.index == 1 && o.reply.err.column == 2
            && o.reply.err.expecteds == ["\"y\""] && o.reply.err.unexpected == Undefined
  {
    var s1 := s0.(index := 1, column := 2);
    SequenceLeavesX(s0, s1, ErrorAt(s1, "", ["\"y\""], Undefined));
  }

  /** `choice` does not rewind between alternatives: after `sequence("x", "y")` has
      consumed the "x" of "xz" and failed, `string("xz")` is tried at offset 1 and
      fails too, although it matches at offset 0. */
  lemma ChoiceDoesNotRewind(s0: Snapshot)
    requires s0 == Fresh("xz")
    ensures var o := Run(NoRules, Choice([Sequence([Literal("x"), Literal("y")]), Literal("xz")]), s0, 0);
            && o.reply.Error? && o.reply.err.index == 1 && o.state.index == 1
            && o.reply.err.expecteds == ["\"y\"", "\"xz\""]
    ensures Run(NoRules, Literal("xz"), s0, 0).reply.Ok?
  {
    var s1 := s0.(index := 1, column := 2);
    var ey := ErrorAt(s1, "", ["\"y\""], Undefined);
    var exz := ErrorAt(s1, "", ["\"xz\""], Undefined);
    SequenceLeavesX(s0, s1, ey);
    FirstCharMismatch(NoRules, s1, "xz", 0);
    assert Quote("xz") == "\"xz\"";
    assert ["\"y\""] + ["\"xz\""] == ["\"y\"", "\"xz\""];
    assert Merge(ey, exz) == Success(ey.(expecteds := ["\"y\"", "\"xz\""]));
    ChoiceOfTwoFail(NoRules, Sequence([Literal("x"), Literal("y")]), Literal("xz"), s0, s1, s1, ey, exz, 0);
    XzMatches(s0);
  }

  /** Proof step of ChoiceDoesNotRewind: "xz" matches at offset 0, the offset `choice` does not go back to. */
  lemma XzMatches(s0: Snapshot)
    requires s0 == Fresh("xz")
    ensures Run(NoRules, Literal("xz"), s0, 0).reply.Ok?
  {
    assert s0.source == "xz" && s0.index == 0;
    TwoCharsMatch(NoRules, s0, 'x', 'z', 0);
    assert "xz" == ['x', 'z'];
  }

  /** Proof step of XzMatches: a two-character literal that is at the cursor. */
  lemma TwoCharsMatch(g: Grammar, s: Snapshot, a: char, b: char, fuel: nat)
    requires 0 <= s.index && s.index + 1 < |s.source| && s.source[s.index] == a && s.source[s.index + 1] == b
    ensures Run(g, Literal([a, b]), s, fuel).reply.Ok?
  {
    assert Peek(s, 0) == [a] && Peek(s, 1) == [b];
    assert MatchesAt(s, [a, b]);
  }

  /** From "xz", `sequence("x", "y")` takes the "x" and then fails at offset 1. */
  lemma SequenceLeavesX(s0: Snapshot, s1: Snapshot, ey: ParseError)
    requires s0 == Fresh("xz") && s1 == s0.(index := 1, column := 2) && ey == ErrorAt(s1, "", ["\"y\""], Undefined)
    ensures Run(NoRules, Sequence([Literal("x"), Literal("y")]), s0, 0) == Outcome(Error(ey), s1)
  {
    CharMatches(NoRules, s0, 'x', 0);
    FirstCharMismatch(NoRules, s1, "y", 0);
    assert Quote("y") == "\"y\"";
    SequenceOfTwoStops(NoRules, Literal("x"), Literal("y"), s0, s1, Text("x"), 0);
  }

  /** `right(a, b, c)` returns the result of the last parser. */
  lemma RightTakesLast(p: Parser, s0: Snapshot)
    requires p == Right([Literal("a"), Literal("b"), Literal("c")]) && s0 == Fresh("abc")
    ensures Run(NoRules, p, s0, 0).reply == Ok(Text("c"))
  {
    var s1 := s0.(index := 1, column := 2);
    var s2 := s0.(index := 2, column := 3);
    var s3 := s0.(index := 3, column := 4);
    CharMatches(NoRules, s0, 'a', 0);
    CharMatches(NoRules, s1, 'b', 0);
    CharMatches(NoRules, s2, 'c', 0);
    var ps := [Literal("a"), Literal("b"), Literal("c")];
    SequenceOfThree(NoRules, ps[0], ps[1], ps[2], s0, s1, s2, s3, Text("a"), Text("b"), Text("c"), 0);
    assert [ps[0], ps[1], ps[2]] == ps;
    Projections(NoRules, ps, 0, s0, 0);
  }
}
