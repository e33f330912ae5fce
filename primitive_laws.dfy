/** The primitive parsers: each either consumes exactly the text it returns, which
    is the text at the cursor, or fails at the cursor without consuming anything. */
module PrimitiveLaws {
  import opened Js
  import opened Cursor
  import opened Errors
  import opened Parsing
  import opened Progress

  /** The cursor shows `str` at its offset exactly when the source holds `str` there. */
  lemma MatchesAtSlice(s: Snapshot, str: string)
    ensures MatchesAt(s, str) <==>
            str == [] || (0 <= s.index && s.index + |str| <= |s.source| && s.source[s.index..s.index + |str|] == str)
  {
    if MatchesAt(s, str) && str != [] {
      MatchReaches(s, str);
    }
    if str != [] && 0 <= s.index && s.index + |str| <= |s.source| && s.source[s.index..s.index + |str|] == str {
      forall i | 0 <= i < |str| ensures Peek(s, i) == [str[i]] {
        assert s.source[s.index..s.index + |str|][i] == str[i];
      }
    }
  }

  /** `string(str)` succeeds exactly when the source holds `str` at the cursor; then
      it returns `str` and moves past it, otherwise it fails at the cursor with the
      quoted text as the one expected label and leaves the cursor where it was. */
  lemma LiteralLaw(g: Grammar, str: string, s: Snapshot, fuel: nat)
    ensures var o := Run(g, Literal(str), s, fuel);
            && (o.reply.Ok? <==> str == [] || (0 <= s.index && s.index + |str| <= |s.source|
                                               && s.source[s.index..s.index + |str|] == str))
            && (o.reply.Ok? ==> o.reply.value == Text(str) && o.state == Advance(s, str)
                                && o.state.index == s.index + |str|
                                && o.state.line == s.line + Newlines(str))
            && (!o.reply.Ok? ==> o.state == s && o.reply.Error?
                                 && o.reply.err == ErrorAt(s, "", [Quote(str)], Undefined))
  {
    MatchesAtSlice(s, str);
    AdvanceLine(s, str);
  }

  /** A primitive parser: one that looks at the cursor only. */
  predicate Primitive(p: Parser)
  {
    p.Fail? || p.Empty? || p.Literal? || p.Satisfy? || p.AnyChar? || p.NotChar?
  }

  /** A primitive never throws anything but a parse error; its value is exactly the
      text it consumed, which is the text of the source at the cursor; and when it
      fails, the cursor has not moved. */
  lemma PrimitiveAtomic(g: Grammar, p: Parser, s: Snapshot, fuel: nat)
    requires Primitive(p)
    ensures var o := Run(g, p, s, fuel);
            && !o.reply.Fault?
            && (o.reply.Error? ==> o.state == s)
            && (o.reply.Ok? ==> o.reply.value.Text? && MatchesAt(s, o.reply.value.s)
                                && o.state == Advance(s, o.reply.value.s))
  {
    PeekMatches(s);
  }

  /** Failing again is failing the same way: a primitive's failure leaves nothing
      behind, so trying it again on the cursor it left reproduces the failure. */
  lemma FailureRepeats(g: Grammar, p: Parser, s: Snapshot, fuel: nat)
    requires Primitive(p) && Run(g, p, s, fuel).reply.Error?
    ensures Run(g, p, Run(g, p, s, fuel).state, fuel) == Run(g, p, s, fuel)
  {
    PrimitiveAtomic(g, p, s, fuel);
  }

  /** `satisfy(cond)` takes the character at the cursor (the empty string at the end)
      when `cond` accepts it, and otherwise fails at the cursor with `<name>`. */
  lemma SatisfyLaw(g: Grammar, name: string, cond: string -> bool, s: Snapshot, fuel: nat)
    ensures var o := Run(g, Satisfy(name, cond), s, fuel);
            var c := Peek(s, 0);
            && (o.reply.Ok? <==> cond(c))
            && (o.reply.Ok? ==> o.reply.value == Text(c) && o.state.index == s.index + |c| && |c| <= 1)
            && (!o.reply.Ok? ==> o.state == s && o.reply == Error(ErrorAt(s, "", ["<" + name + ">"], Undefined)))
  {
  }

  /** `any` takes one character whenever there is one, and at the end of the input
      fails expecting "any character" and finding "end of file". */
  lemma AnyCharLaw(g: Grammar, s: Snapshot, fuel: nat)
    ensures var o := Run(g, AnyChar, s, fuel);
            && (o.reply.Ok? <==> 0 <= s.index < |s.source|)
            && (o.reply.Ok? ==> o.reply.value == Text([s.source[s.index]]) && o.state.index == s.index + 1)
            && (!o.reply.Ok? ==> o.state == s
                                 && o.reply == Error(ErrorAt(s, "", ["any character"], Text("end of file"))))
  {
  }

  /** `notChar(chr)` takes one character other than `chr`; on `chr` it fails with no
      label and the quoted character as the unexpected token, and at the end of the
      input with the label `not "chr"`. */
  lemma NotCharLaw(g: Grammar, chr: char, s: Snapshot, fuel: nat)
    ensures var o := Run(g, NotChar(chr), s, fuel);
            && (o.reply.Ok? <==> 0 <= s.index < |s.source| && s.source[s.index] != chr)
            && (o.reply.Ok? ==> o.reply.value == Text([s.source[s.index]]) && o.state.index == s.index + 1)
            && (!o.reply.Ok? ==> o.state == s && o.reply.Error?)
            && (0 <= s.index < |s.source| && s.source[s.index] == chr ==>
                  o.reply == Error(ErrorAt(s, "", [], Text(Quote([chr])))))
            && (!(0 <= s.index < |s.source|) ==>
                  o.reply == Error(ErrorAt(s, "", ["not " + Quote([chr])], Text("end of file"))))
  {
  }

  /** `error` and `expected` fail where the cursor is, with exactly what they were given. */
  lemma FailLaw(g: Grammar, message: string, labels: seq<string>, unexpected: Value, s: Snapshot, fuel: nat)
    ensures var o := Run(g, Fail(message, labels, unexpected), s, fuel);
            && o.state == s && o.reply.Error?
            && o.reply.err.index == s.index && o.reply.err.line == s.line && o.reply.err.column == s.column
            && o.reply.err.message == message && o.reply.err.expecteds == labels
            && o.reply.err.unexpected == unexpected
            && (message != "" ==> Message(o.reply.err) == message)
  {
  }

  /** `empty` fails at no position: offset, line and column are -1, its message is
      fixed, and it loses to any positioned error it is merged with. */
  lemma EmptyLaw(g: Grammar, s: Snapshot, fuel: nat, other: ParseError)
    requires other.filename == s.filename && other.index >= 0
    ensures var o := Run(g, Empty, s, fuel);
            && o.state == s && o.reply.Error?
            && o.reply.err.index == -1 && o.reply.err.line == -1
            && Message(o.reply.err) == "it is an empty error."
            && ShowLine(o.reply.err) == Success(NotFound)
            && Merge(o.reply.err, other) == Success(other)
            && Merge(other, o.reply.err) == Success(other)
  {
    ShowLineNotFound(Run(g, Empty, s, fuel).reply.err);
  }

  /** On the one character (or nothing) that the cursor shows, each class is the character range its name says. */
  lemma CharacterClasses(c: string)
    requires |c| <= 1
    ensures IsDigit(c) <==> |c| == 1 && '0' <= c[0] <= '9'
    ensures IsOctDigit(c) <==> |c| == 1 && '0' <= c[0] <= '7'
    ensures IsHexDigit(c) <==> |c| == 1 && ('0' <= c[0] <= '9' || 'a' <= c[0] <= 'f' || 'A' <= c[0] <= 'F')
    ensures IsLower(c) <==> |c| == 1 && 'a' <= c[0] <= 'z'
    ensures IsUpper(c) <==> |c| == 1 && 'A' <= c[0] <= 'Z'
    ensures IsLetter(c) <==> |c| == 1 && ('a' <= c[0] <= 'z' || 'A' <= c[0] <= 'Z')
    ensures IsAlphaNum(c) <==> |c| == 1 && ('a' <= c[0] <= 'z' || 'A' <= c[0] <= 'Z' || '0' <= c[0] <= '9')
  {
    InRangeChar(c, '0', '9');
    InRangeChar(c, '0', '7');
    InRangeChar(c, 'a', 'f');
    InRangeChar(c, 'A', 'F');
    InRangeChar(c, 'a', 'z');
    InRangeChar(c, 'A', 'Z');
  }

  /** `digit` takes one decimal digit, and fails at the cursor on anything else or at the end of the input. */
  lemma DigitLaw(g: Grammar, s: Snapshot, fuel: nat)
    ensures var o := Run(g, Digit(), s, fuel);
            && (o.reply.Ok? <==> 0 <= s.index < |s.source| && '0' <= s.source[s.index] <= '9')
            && (o.reply.Ok? ==> o.reply.value == Text([s.source[s.index]]) && o.state.index == s.index + 1)
            && (!o.reply.Ok? ==> o.state == s && o.reply == Error(ErrorAt(s, "", ["<digit>"], Undefined)))
  {
    CharacterClasses(Peek(s, 0));
    assert "<" + "digit" + ">" == "<digit>";
  }

  /** `letter` takes one ASCII letter, and fails at the cursor on anything else or at the end of the input. */
  lemma LetterLaw(g: Grammar, s: Snapshot, fuel: nat)
    ensures var o := Run(g, Letter(), s, fuel);
            && (o.reply.Ok? <==> 0 <= s.index < |s.source|
                                 && ('a' <= s.source[s.index] <= 'z' || 'A' <= s.source[s.index] <= 'Z'))
            && (o.reply.Ok? ==> o.reply.value == Text([s.source[s.index]]) && o.state.index == s.index + 1)
            && (!o.reply.Ok? ==> o.state == s && o.reply == Error(ErrorAt(s, "", ["<letter>"], Undefined)))
  {
    CharacterClasses(Peek(s, 0));
    assert "<" + "letter" + ">" == "<letter>";
  }
}
