/** `ParseError`: a failure at a position, with the labels of what would have
    matched there, merged by the farthest-failure rule and rendered for people. */
module Errors {
  import opened Js

  /** `message` is the override text; the empty string stands for every falsy
      value the source may hold there (undefined, null, ''), all of which the
      source treats alike. `unexpected` is whatever value the thrower supplied. */
  datatype ParseError = ParseError(
    source: string,
    index: int,
    filename: string,
    line: int,
    column: int,
    message: string,
    expecteds: seq<string>,
    unexpected: Value)

  /** `a.merge(b)`: the error at the farther offset wins; at the same offset the
      labels are concatenated and the override message and unexpected token are
      taken from `a` when it has them. Errors of two different files are not merged. */
  function Merge(a: ParseError, b: ParseError): (r: Result<ParseError>)
    ensures r.Failure? <==> a.filename != b.filename
    ensures r.Success? ==> r.value.index >= a.index && r.value.index >= b.index
                           && (r.value.index == a.index || r.value.index == b.index)
  {
    if a.filename != b.filename then Failure(Thrown("cannot merge parse errors created by different files."))
    else if a.index > b.index then Success(a)
    else if a.index < b.index then Success(b)
    else Success(ParseError(
      a.source, a.index, a.filename, a.line, a.column,
      if a.message != "" then a.message else b.message,
      a.expecteds + b.expecteds,
      if Truthy(a.unexpected) then a.unexpected else b.unexpected))
  }

  /** The farther error survives whichever side it is on. At a tie the receiver keeps its
      position, gains the other's labels after its own, and takes the other's override
      message and unexpected token only where its own are falsy. */
  lemma MergeFarthest(a: ParseError, b: ParseError)
    ensures Merge(a, b).Failure? <==> a.filename != b.filename
    ensures Merge(a, b).Success? ==>
      var m := Merge(a, b).value;
      && m.filename == a.filename
      && m.index == (if a.index >= b.index then a.index else b.index)
      && (a.index > b.index ==> m == a)
      && (a.index < b.index ==> m == b)
      && (a.index == b.index ==>
            m == a.(message := if a.message != "" then a.message else b.message,
                    expecteds := a.expecteds + b.expecteds,
                    unexpected := if Truthy(a.unexpected) then a.unexpected else b.unexpected))
  {
  }

  /** Merging is symmetric in the position it keeps and in the labels it keeps. */
  lemma MergeSymmetric(a: ParseError, b: ParseError)
    requires a.filename == b.filename
    ensures Merge(a, b).value.index == Merge(b, a).value.index
    ensures multiset(Merge(a, b).value.expecteds) == multiset(Merge(b, a).value.expecteds)
    ensures a.index != b.index ==> Merge(a, b) == Merge(b, a)
  {
  }

  /** The left fold of `Merge` over a list of errors, as `choice` accumulates them. */
  function MergeAll(first: ParseError, rest: seq<ParseError>): (r: Result<ParseError>)
    ensures r.Success? <==> forall i :: 0 <= i < |rest| ==> rest[i].filename == first.filename
    ensures r.Success? ==> r.value.filename == first.filename
    decreases |rest|
  {
    if rest == [] then Success(first)
    else match MergeAll(first, rest[..|rest| - 1])
      case Failure(f) => Failure(f)
      case Success(m) => Merge(m, rest[|rest| - 1])
  }

  /** Folding errors of one file never throws and ends at the farthest offset among them, which is one of their offsets. */
  lemma {:induction false} MergeAllFarthest(first: ParseError, rest: seq<ParseError>)
    requires forall i :: 0 <= i < |rest| ==> rest[i].filename == first.filename
    ensures MergeAll(first, rest).Success?
    ensures MergeAll(first, rest).value.filename == first.filename
    ensures MergeAll(first, rest).value.index >= first.index
    ensures forall i :: 0 <= i < |rest| ==> MergeAll(first, rest).value.index >= rest[i].index
    ensures MergeAll(first, rest).value == first ||
            exists i :: 0 <= i < |rest| && MergeAll(first, rest).value.index == rest[i].index
    decreases |rest|
  {
    if rest != [] {
      MergeAllFarthest(first, rest[..|rest| - 1]);
      var m := MergeAll(first, rest[..|rest| - 1]).value;
      var last := rest[|rest| - 1];
      if m == first && m.index >= last.index && MergeAll(first, rest).value != first {
        assert MergeAll(first, rest).value.index == rest[|rest| - 1].index;
      }
      if m != first {
        var i :| 0 <= i < |rest| - 1 && m.index == rest[..|rest| - 1][i].index;
        assert MergeAll(first, rest).value.index == rest[i].index
            || MergeAll(first, rest).value.index == rest[|rest| - 1].index;
      }
    }
  }

  /** `unique(labels)`: each label once, in the order of first occurrence. */
  function Unique(xs: seq<string>): (r: seq<string>)
    ensures Distinct(r)
    ensures forall x :: x in r <==> x in xs
    decreases |xs|
  {
    if xs == [] then []
    else
      var u := Unique(xs[..|xs| - 1]);
      var last := xs[|xs| - 1];
      assert forall x :: x in xs <==> x in xs[..|xs| - 1] || x == last by {
        assert xs == xs[..|xs| - 1] + [last];
      }
      if last in u then u else u + [last]
  }

  /** The labels as the message shows them: each once, in sorted order. */
  function Normalized(xs: seq<string>): (r: seq<string>)
    ensures Sorted(r) && Distinct(r)
    ensures forall x :: x in r <==> x in xs
  {
    var u := Unique(xs);
    var r := Sort(u);
    DistinctMultiset(u, r);
    assert forall x :: x in r <==> x in multiset(r);
    r
  }

  /** The normalized labels depend only on which labels there are, not on their order or repetitions. */
  lemma NormalizedBySet(xs: seq<string>, ys: seq<string>)
    requires forall x :: x in xs <==> x in ys
    ensures Normalized(xs) == Normalized(ys)
  {
    SortedDistinctUnique(Normalized(xs), Normalized(ys));
  }

  /** "A", "A and B", "A, B and C". */
  function JoinAnd(labels: seq<string>): string
    requires labels != []
  {
    if |labels| == 1 then labels[0]
    else Join(labels[..|labels| - 1], ", ") + " and " + labels[|labels| - 1]
  }

  /** The part of the message after "file:line: ". */
  function Describe(labels: seq<string>, unexpected: Value): string
  {
    if labels == [] then "unexpected " + Display(unexpected)
    else "expected " + JoinAnd(labels) + (if Truthy(unexpected) then ", but found " + Display(unexpected) else "")
  }

  /** The `message` getter: the override when there is one, otherwise
      "file:line: " and a description built from the normalized labels. */
  function Message(e: ParseError): (r: string)
    ensures e.message != "" ==> r == e.message
    ensures e.message == "" ==> e.filename + ":" + IntToString(e.line) + ": " <= r
  {
    if e.message != "" then e.message
    else e.filename + ":" + IntToString(e.line) + ": " + Describe(Normalized(e.expecteds), e.unexpected)
  }

  /** The getter stores the normalized labels back into the error; doing so does not change the message. */
  function Normalize(e: ParseError): ParseError
  {
    e.(expecteds := Normalized(e.expecteds))
  }

  /** The message depends on the set of labels only. */
  lemma MessageBySet(e: ParseError, f: ParseError)
    requires e.(expecteds := []) == f.(expecteds := [])
    requires forall x :: x in e.expecteds <==> x in f.expecteds
    ensures Message(e) == Message(f)
  {
    NormalizedBySet(e.expecteds, f.expecteds);
  }

  /** Reading the message twice gives the same text, though the first read rewrote the labels. */
  lemma MessageStable(e: ParseError)
    ensures Message(Normalize(e)) == Message(e)
    ensures Normalized(Normalize(e).expecteds) == Normalize(e).expecteds
  {
    NormalizedBySet(Normalize(e).expecteds, e.expecteds);
    var n := Normalized(e.expecteds);
    SortedDistinctUnique(Normalized(n), n);
  }

  /** The three shapes of the message when there is no override: no labels, one label, several. */
  lemma MessageShapes(e: ParseError)
    requires e.message == ""
    ensures var prefix := e.filename + ":" + IntToString(e.line) + ": ";
            var labels := Normalized(e.expecteds);
            var found := if Truthy(e.unexpected) then ", but found " + Display(e.unexpected) else "";
            && (e.expecteds == [] ==> Message(e) == prefix + ("unexpected " + Display(e.unexpected)))
            && (|labels| == 1 ==> Message(e) == prefix + ("expected " + labels[0] + found))
            && (|labels| >= 2 ==> Message(e) == prefix + ("expected " + (Join(labels[..|labels| - 1], ", ")
                                               + " and " + labels[|labels| - 1]) + found))
  {
    var labels := Normalized(e.expecteds);
    assert e.expecteds == [] ==> labels == [] by {
      if labels != [] {
        assert labels[0] in labels;
      }
    }
  }

  /** The line of `source` numbered `line` (from 1), when there is one. */
  function LineOf(source: string, line: int): (r: string)
    ensures '\n' !in r
  {
    var lines := Lines(source);
    if 1 <= line <= |lines| then lines[line - 1] else ""
  }

  const NotFound := "<source not found>"

  /** `showLine()`: the erroneous line and a caret under the column. A column up to
      79 shows the first 79 characters; a farther column shows 79 characters starting
      21 before it, with the caret at the 21st place. A missing or empty line, or a
      column past the end of the line, gives a placeholder. A negative column makes
      `Array(column)` throw. */
  function ShowLine(e: ParseError): (r: Result<string>)
    ensures r.Failure? <==> e.column < 0 && LineOf(e.source, e.line) != ""
    ensures r.Success? && r.value != NotFound ==> |r.value| > 0 && r.value[|r.value| - 1] == '^'
  {
    var text := LineOf(e.source, e.line);
    if text == "" || |text| + 1 < e.column then Success(NotFound)
    else if e.column <= 79 then
      if e.column < 0 then Failure(RangeError("Invalid array length"))
      else Success(Slice(text, 0, 79) + "\n" + Spaces(if e.column == 0 then 0 else e.column - 1) + "^")
    else Success(Slice(text, e.column - 21, e.column + 58) + "\n" + Spaces(20) + "^")
  }

  /** The caret stands under the character at the error's column, and the excerpt is at most 79 characters. */
  lemma ShowLineCaret(e: ParseError)
    requires 1 <= e.column
    requires var text := LineOf(e.source, e.line); text != "" && e.column <= |text|
    ensures ShowLine(e).Success?
    ensures var text := LineOf(e.source, e.line);
            var shown := ShowLine(e).value;
            var width := if e.column <= 79 then e.column - 1 else 20;
            var excerpt := shown[..|shown| - width - 2];
            && |shown| >= width + 2
            && shown[|shown| - width - 2] == '\n'
            && shown[|shown| - width - 2 + 1..] == Spaces(width) + "^"
            && |excerpt| <= 79
            && width < |excerpt|
            && excerpt[width] == text[e.column - 1]
  {
    var text := LineOf(e.source, e.line);
    if e.column <= 79 {
      var excerpt := Slice(text, 0, 79);
      assert ShowLine(e).value == excerpt + "\n" + Spaces(e.column - 1) + "^";
      CaretLine(excerpt, e.column - 1);
    } else {
      var excerpt := Slice(text, e.column - 21, e.column + 58);
      assert ShowLine(e).value == excerpt + "\n" + Spaces(20) + "^";
      CaretLine(excerpt, 20);
    }
  }

  /** Proof step of ShowLineCaret: the excerpt, a newline, and the caret line. */
  lemma CaretLine(excerpt: string, width: nat)
    ensures var shown := excerpt + "\n" + Spaces(width) + "^";
            && |shown| == |excerpt| + width + 2
            && shown[..|excerpt|] == excerpt
            && shown[|excerpt|] == '\n'
            && shown[|excerpt| + 1..] == Spaces(width) + "^"
  {
    var shown := excerpt + "\n" + Spaces(width) + "^";
    assert shown == excerpt + ("\n" + (Spaces(width) + "^"));
  }

  /** A line that cannot be found, as for the position-less empty error, renders the placeholder. */
  lemma ShowLineNotFound(e: ParseError)
    requires e.line < 1 || e.line > |Lines(e.source)| || e.source == ""
    ensures ShowLine(e) == Success(NotFound)
  {
  }
}
