# siscom.js in Dafny

A model of the engine of siscom.js, a small parser-combinator library for
JavaScript, with proofs about it. It covers four parts of the library:

- **The cursor.** `Status` holds the text, the offset, the file name, the line and the
  column. It has `get`, `update`, `save` and `reset`; `save`/`reset` is how the engine
  backtracks. It is modelled twice:
  - `Cursor.Snapshot` is a value.
  - `Cursor.Status` is a class with the same fields. Its methods change them in place,
    and each is proved against a function on snapshots.
- **Parse errors.** `ParseError` and its `merge`, its `message` getter and `showLine`
  (module `Errors`), and the helper `unique`.
- **The primitive parsers.** `error`, `expected`, `empty`, `string`, `satisfy`, `any`,
  `notChar` and the character classes.
- **The combinators.** `named`, `lazy`/`wrap`, `count` and its specialisations, the
  `skip*` family, `option`/`optional`, `choice`, `sequence`/`seq`, `get`/`left`/`right`/`between`,
  `sepBy1`/`sepBy`, `endBy1`/`endBy`, `sepEndBy1`/`sepEndBy`, `manyTill` and `notFollowedBy`.

## How the library is modelled

**Parsers as data.** A parser is a value of the datatype `Parsing.Parser`. Each
combinator of the library is a constructor, or a function that builds one:
`many(p)` is `Count(0, Infinity, p, true)`, `right(...)` is `Seq(ps, Pick(n))`, and so on.

**`Parsing.Run` interprets a parser** on a cursor and gives the reply and the new
cursor. The library signals failure by exceptions; the model turns them into values:
- `Ok(v)` is a result.
- `Error(e)` is a thrown `ParseError`. These are the errors `option`, `choice` and the
  loops catch.
- `Fault(f)` is anything else the library throws. These pass through every catch:
  - a `ReferenceError` or `RangeError`;
  - the `null` that `choice()` throws with no alternatives;
  - the error `merge` throws for two different files;
  - two verdicts of the model itself, explained below.

**The code as it runs on the shared cursor.** `Exec` holds methods over one mutable
`Cursor.Status`, with the same loops, saves and resets as the library. Each is proved
to return, throw and leave the cursor exactly as `Run` says. `Exec.LazyRule` is the
cache that `lazy` keeps between runs. It goes stale when a later run's grammar rebinds
the variable, and then `lazy` and `wrap` part (`Exec.LazyKeepsFirstParser`).

**Thunks become a grammar.** The thunk of `lazy`/`wrap` is a rule name looked up in a
`Grammar` map. `fuel` bounds how deeply rule references may nest. Running out of it
gives `Fault(OutOfFuel)`; `Fuel.RunFuelMonotone` shows that more fuel changes nothing
else.

**Loops that never end.** The library loops forever when an unbounded repetition
succeeds without consuming input. The model stops there with `Fault(Loops)`.
`Progress.StuckSuccessRepeats` shows why that is sound: such a run leaves the cursor
unchanged, so it would repeat for ever.

**Where the code and its description disagree, the model follows the code:**
- `right(...)` returns the last result, not the one before it. The callback is pushed
  onto the parser list before `parsers.length - 2` is computed (siscom.js:539-546).
- `manyTill` consumes the terminator.
- The error of `string` has an undefined unexpected token.
- `named` throws at the cursor the inner parser left, not where it started.
- `choice` does not rewind between alternatives.
- `count` with `min > max` collects `max` items.

`Defects` models the library's three broken combinators as written. The rest of the
model uses the corrected forms. See "Findings".

## Model

| member | source | states |
|---|---|---|
| Cursor.Peek | siscom.js:37-39 | `get(k)` is one character, and it is the source's character at `index + k`; it is the empty string exactly when that position is outside the source |
| Cursor.Step | siscom.js:46-56 | one character of `update`: the offset, text and file stay; a newline moves to column 1 of the next line, any other character one column right |
| Cursor.Walk | siscom.js:46-56 | walking over the consumed text keeps the source, the offset and the file name |
| Cursor.Advance | siscom.js:41-57 | `update(str)` keeps the source and the file name and moves the offset by exactly the length of `str` |
| Cursor.AdvanceLine | siscom.js:41-57 | after `update(str)` the line number has grown by the number of newlines in `str` |
| Cursor.WalkLine | siscom.js:46-56 | the per-character walk adds one line per newline |
| Cursor.AdvanceColumn | siscom.js:41-57 | after `update(str)` the column has grown by the length of `str` when `str` has no newline; otherwise it is one more than the number of characters after the last newline |
| Cursor.WalkColumn | siscom.js:46-56 | the same two column cases for the per-character walk |
| Cursor.WalkAppend | siscom.js:46-56 | walking over `a` and then over `b` is walking over `a + b` |
| Cursor.AdvanceAppend | siscom.js:41-57 | two successive `update`s are one `update` over the concatenated text |
| Cursor.WalkIndex | siscom.js:44-56 | the offset plays no part in how line and column move |
| Cursor.ReachesTransitive | siscom.js:41-57 | consuming text and then more text is consuming the concatenation |
| Cursor.ReachesSameIndex | siscom.js:41-57 | a cursor reached without moving the offset is the same cursor |
| Cursor.Status.constructor | siscom.js:21-33 | the new cursor holds exactly the five given fields |
| Cursor.Status.Update | siscom.js:41-57 | the loop leaves the fields equal to `Advance` of the old cursor over `str` |
| Cursor.Status.Save | siscom.js:59-61 | `save()` is a fresh object with the same five fields |
| Cursor.Status.Reset | siscom.js:63-69 | `reset(saved)` overwrites every field with the saved one |
| Cursor.SaveUpdateReset | siscom.js:59-69 | `save`, then any number of `update`s, then `reset` restores the cursor exactly |
| Errors.Merge | siscom.js:99-112 | `merge` throws exactly when the file names differ; otherwise the result stands at the farther of the two offsets |
| Errors.MergeFarthest | siscom.js:99-112 | `merge` throws exactly when the file names differ; otherwise the strictly farther error is returned unchanged, whichever side it is on; at a tie the result is the receiver with the labels concatenated (receiver first), the receiver's override message unless it is empty (then the other's), and the receiver's unexpected token unless it is falsy (then the other's) |
| Errors.MergeSymmetric | siscom.js:99-112 | swapping the two sides keeps the position and the multiset of labels, and keeps the whole result when the positions differ |
| Errors.MergeAll | siscom.js:471-482 | the left fold of `merge` over the errors of the alternatives, in order, as `choice` accumulates it, throws exactly when some error comes from another file than the first, and otherwise keeps the first one's file |
| Errors.MergeAllFarthest | siscom.js:99-112 | folding `merge` over errors of one file never throws; it keeps an offset at least as far as each input's, and that offset is one of the inputs' |
| Errors.Unique | siscom.js:3-8 | `unique` returns each label once and loses none |
| Errors.Normalized | siscom.js:122 | the labels the message shows are sorted, without duplicates, and are exactly the labels of the error |
| Errors.NormalizedBySet | siscom.js:122 | the shown labels depend only on which labels there are |
| Errors.Message | siscom.js:114-143 | an override message is the message; otherwise the message starts with "file:line: " |
| Errors.MessageBySet | siscom.js:114-143 | the message depends on the set of labels only, not on their order or repetitions |
| Errors.MessageStable | siscom.js:114-143 | the getter rewrites the labels into normalized form, and reading the message again gives the same text |
| Errors.MessageShapes | siscom.js:114-143 | with no override message: "file:line: unexpected U" with no labels; "expected A" with one label, and "expected A, B and C" with several, each followed by ", but found U" when U is truthy |
| Errors.LineOf | siscom.js:148 | the line picked out of the source holds no newline |
| Errors.ShowLine | siscom.js:145-163 | `showLine` throws (a `RangeError` from `Array(column)`) exactly when the line exists and the column is negative; an excerpt it shows ends with the caret |
| Errors.ShowLineCaret | siscom.js:145-163 | when the line exists and the column is on it, the excerpt is at most 79 characters; the caret line is `column - 1` spaces (20 past column 79) and a caret; the caret stands under the error's character |
| Errors.ShowLineNotFound | siscom.js:148-152 | a line that cannot be found renders `<source not found>` |
| Js.Truthy | siscom.js:111 | `!!v` on the modelled values: exactly undefined, null and the empty string are falsy; every array is truthy |
| Js.Display | siscom.js:125-136 | `String(v)` as the message concatenation writes an unexpected token: a string is itself, an empty array is empty, a one-string array is that string |
| Js.Stringify | siscom.js:602 | `JSON.stringify(v)` is undefined exactly for undefined, otherwise a string of at least two characters; a string is quoted as `Quote` escapes it |
| Js.Insert | siscom.js:122 | inserting one label into a sorted list keeps it sorted and adds exactly that label |
| Js.Sort | siscom.js:122 | `sort()` returns the same labels, sorted |
| Js.SortedDistinctUnique | siscom.js:122 | two sorted lists without duplicates that hold the same labels are equal |
| Js.Lines | siscom.js:148 | `split('\n')` gives pieces without newlines that join back into the text |
| Js.Spaces | siscom.js:156 | `Array(n + 1).join(' ')` is `n` spaces |
| Js.Quote | siscom.js:223 | the label of a literal is its JSON quotation, which begins and ends with a quote |
| Parsing.Get | siscom.js:520-528 | `get(n, ...)` is `seq` over the same parsers whose callback yields the `n`-th result, undefined when there is none |
| Parsing.Left | siscom.js:530-537 | `left(...)` is `seq` over the same parsers whose callback yields the first result |
| Parsing.Right | siscom.js:539-546 | `right(...)` is `seq` picking index `parsers.length - 2` of an array that still holds the callback, which is the last result |
| Parsing.SepBy | siscom.js:569-571 | `sepBy` as `option([], sepBy1(parser, sep))`, the corrected form of the `Combunators` line listed under Findings: an optional `sepBy1` whose fallback is the empty array |
| Parsing.SepEndBy | siscom.js:585-587 | `sepEndBy` as `left(sepBy(parser, sepEnd), optional(sepEnd))`, the corrected form of the self-call listed under Findings: the separated list, then an optional trailing separator, keeping the list |
| Parsing.NotCharOf | siscom.js:291-294 | `notChar(chr)` builds a parser exactly when `chr` is one character, and throws at once otherwise |
| Parsing.LiteralAt | siscom.js:221-238 | `string(str)` throws only parse errors; a failure consumes nothing and stands at the cursor; a success consumes exactly the text it returns |
| Parsing.SatisfyAt | siscom.js:240-255 | the same for `satisfy` |
| Parsing.AnyCharAt | siscom.js:275-289 | the same for `any` |
| Parsing.NotCharAt | siscom.js:291-311 | the same for `notChar` |
| Parsing.EmptyError | siscom.js:217-219 | `empty`'s error is at offset -1 with no labels, reads "it is an empty error." and shows `<source not found>` |
| Parsing.Run | siscom.js:176-626 | no parser moves the cursor back before where it started; none changes the text or the file or moves past the end |
| Parsing.CountLoop | siscom.js:354-368 | the loop of `count` never moves the cursor back before where it started, nor changes the text or the file |
| Parsing.ChoiceLoop | siscom.js:471-482 | the same for the loop of `choice` |
| Parsing.SepByLoop | siscom.js:555-565 | the same for the loop of `sepBy1`, whose reset goes back to the save taken before the separator |
| Parsing.ManyTillLoop | siscom.js:612-622 | the same for the loop of `manyTill` |
| Parsing.SequenceLoop | siscom.js:488-502 | a successful sequence has one result per step |
| Parsing.InRangeChar | siscom.js:319-346 | on one character the range test of the character classes is a plain range |
| PrimitiveLaws.MatchesAtSlice | siscom.js:221-238 | comparing `get(i)` to each character of `str` is comparing the source slice at the cursor with `str` |
| PrimitiveLaws.LiteralLaw | siscom.js:221-238 | `string(str)` succeeds exactly when the source holds `str` at the cursor; on success it returns `str`, advances the offset by the length of `str` and the line by its newlines; on failure the cursor is unchanged and the error expects the quoted `str` |
| PrimitiveLaws.PrimitiveAtomic | siscom.js:207-311 | every primitive either throws a parse error without consuming anything, or consumes exactly the text it returns |
| PrimitiveLaws.FailureRepeats | siscom.js:207-311 | retrying a failed primitive on the cursor it left fails the same way |
| PrimitiveLaws.SatisfyLaw | siscom.js:240-255 | `satisfy(cond)` succeeds exactly when `cond` accepts `get()`, and then returns that character; on failure the cursor is unchanged and the error expects `<name>` |
| PrimitiveLaws.AnyCharLaw | siscom.js:275-289 | `any` takes one character exactly when one is left; at the end it expects "any character" and finds "end of file" |
| PrimitiveLaws.NotCharLaw | siscom.js:291-311 | `notChar(c)` takes one character exactly when it is not `c`; on `c` the unexpected token is the quoted `c`, and at the end it expects `not "c"` and finds "end of file" |
| PrimitiveLaws.FailLaw | siscom.js:207-215 | `error` and `expected` fail at the cursor with exactly the given message, labels and unexpected token, and an override message is the message |
| PrimitiveLaws.EmptyLaw | siscom.js:217-219 | `empty` fails at offset and line -1 with its fixed message and no line to show; merged with any positioned error of the same file, the other error wins |
| PrimitiveLaws.CharacterClasses | siscom.js:319-346 | each character class accepts exactly the character range its name says, and never the end of input |
| PrimitiveLaws.DigitLaw | siscom.js:319-346 | `digit` takes one decimal digit and fails in place on anything else, expecting `<digit>` |
| PrimitiveLaws.LetterLaw | siscom.js:319-346 | `letter` takes one ASCII letter and fails in place on anything else, expecting `<letter>` |
| CombinatorLaws.NamedLaw | siscom.js:176-185 | `named(name, p)` is `p` unless `p` throws a parse error; then it throws one with `name` as the only label, `p`'s message and unexpected token, at the cursor `p` left |
| CombinatorLaws.NamedMessage | siscom.js:176-185 | that error reads "file:line: expected name", with ", but found U" when there is an unexpected token |
| CombinatorLaws.NormalizedSingle | siscom.js:122 | one label normalizes to itself |
| CombinatorLaws.RuleLaw | siscom.js:187-204 | `lazy`/`wrap` run the parser their thunk names, one dereference deep; a thunk naming nothing throws a `ReferenceError`; on one fixed grammar, where the cache cannot go stale, `lazy` and `wrap` run alike |
| CombinatorLaws.SkipLaw | siscom.js:394-398 | `skip(p)` consumes and fails as `p` does and returns undefined |
| CombinatorLaws.OptionLaw | siscom.js:444-461 | `option(d, p)` never throws a parse error; when `p` throws one it returns `d` at the entry cursor, otherwise it is `p`; `optional` is `option(null, p)` |
| CombinatorLaws.ChoiceOfNothing | siscom.js:463-486 | `choice()` throws `null` |
| CombinatorLaws.ThreadedFile | siscom.js:471-482 | the cursors the alternatives run from, one after another without rewinding, and their errors all stay in the file being parsed |
| CombinatorLaws.ChoiceLoopThreaded | siscom.js:471-482 | the loop passes over alternatives that throw parse errors, each run from where the one before left the cursor, folding their errors in with `merge` in order |
| CombinatorLaws.MergeAllStep | siscom.js:471-482 | folding in one more alternative's error is one more `merge` |
| CombinatorLaws.ChoiceSkipsFailures | siscom.js:463-486 | after its first alternatives threw parse errors, `choice` stands where the last of them left the cursor, with their errors merged in order |
| CombinatorLaws.ChoiceFirstSuccess | siscom.js:463-486 | when alternatives `0..k-1` throw parse errors, each run from where the one before left the cursor, and alternative `k` does not, `choice` is that run of alternative `k` |
| CombinatorLaws.ChoiceAllFail | siscom.js:463-486 | when every alternative throws a parse error, each run from where the one before left the cursor, `choice` throws the left fold of `merge` over their errors in order, at the cursor the last one left |
| CombinatorLaws.ChoiceAllFailInPlace | siscom.js:463-486 | the special case of alternatives that fail without consuming: the fold of their errors, at the entry cursor |
| CombinatorLaws.PrependAppend | siscom.js:496-498 | proof step of SequenceLoopAcc: putting `acc + [v]` in front of a result list is putting `[v]` and then `acc` in front |
| CombinatorLaws.SequenceLoopAcc | siscom.js:488-502 | the results collected so far stay in front of those still to come |
| CombinatorLaws.SequenceLoopSteps | siscom.js:488-518 | the rest of a sequence depends only on the steps still to run |
| CombinatorLaws.SequenceCons | siscom.js:488-502 | `sequence(a, ...rest)` is `a`, then the rest from where `a` left the cursor, with `a`'s result in front; the first failure is the sequence's |
| CombinatorLaws.SequenceOfNothing | siscom.js:488-502 | `sequence()` succeeds at once with no results |
| CombinatorLaws.SequenceLength | siscom.js:488-502 | a successful sequence returns one result per parser |
| CombinatorLaws.SeqProjects | siscom.js:504-518 | `seq(...ps, callback)` is `sequence(...ps)` with the callback applied to the results and the cursor saved before the sequence |
| CombinatorLaws.Projections | siscom.js:520-546 | `get(n, ...)` returns the n-th result (undefined out of range), `left` the first and `right` the last; each fails as the sequence fails |
| CombinatorLaws.BetweenLaw | siscom.js:628-630 | `between(open, p, close)` returns `p`'s result and fails as the three in sequence fail |
| CombinatorLaws.SepByLoopNeverFails | siscom.js:548-567 | after the first item, `sepBy1` never throws a parse error and keeps the results collected so far in front |
| CombinatorLaws.SepByLoopUnroll | siscom.js:555-565 | successful separator-and-item rounds collect their items, in order, and hand the loop on to where they left the cursor |
| CombinatorLaws.SepByLoopCases | siscom.js:555-565 | every success of the loop is some number of successful rounds, then a round whose separator or item threw a parse error, ending at the cursor before that separator |
| CombinatorLaws.SepStoppedStep | siscom.js:555-565 | one more successful round in front of a list that ended puts its item at the front |
| CombinatorLaws.SepBy1Law | siscom.js:548-567 | `sepBy1` throws a parse error exactly when its first item does, and then that one; a success is the first item's result followed by the items of the successful separator-and-item rounds in order, with the cursor reset to before the separator of the round that failed |
| CombinatorLaws.SepBy1Succeeds | siscom.js:548-567 | conversely, a first item, `k` successful rounds and a failed one make `sepBy1` return exactly those `k + 1` results at the cursor the rounds reached |
| CombinatorLaws.SepByLaw | siscom.js:569-571 | `sepBy` never throws a parse error: the empty list at the entry cursor when the first item fails, `sepBy1` otherwise |
| CombinatorLaws.EndByLaws | siscom.js:573-579 | `endBy` never throws a parse error; `endBy1` throws exactly when the first item and terminator do, and with that failure |
| CombinatorLaws.SepEndBy1Law | siscom.js:581-583 | `sepEndBy1` fails exactly as `sepBy1` does and returns the same list, after one optional trailing separator |
| CombinatorLaws.SepEndByLaw | siscom.js:585-587 | `sepEndBy` never throws a parse error and, on success, returns the list that `sepBy` returns |
| CombinatorLaws.TwoStepLeft | siscom.js:530-537 | `left(a, b)` with `b` an option fails exactly as `a` does and returns `a`'s result at the cursor `b` leaves |
| CombinatorLaws.ManyTillLoopCases | siscom.js:612-622 | every success of the loop is some number of rounds (terminator fails, item from the same cursor succeeds) whose items follow those already collected, in order, then a terminator that matched and is consumed; every parse error is an item that failed where the terminator had just failed, after such rounds |
| CombinatorLaws.TerminatedStep | siscom.js:612-622 | one more round in front of a loop that ends at its terminator adds its item at the front |
| CombinatorLaws.ItemFailedStep | siscom.js:612-622 | one more round in front of a loop whose item failed |
| CombinatorLaws.ManyTillLoopUnroll | siscom.js:612-622 | rounds collect their items in order and hand the loop on to where they left the cursor |
| CombinatorLaws.ManyTillLaw | siscom.js:606-626 | `manyTill` returns the empty list past the terminator when it matches at once; a success is the items' results of some number of rounds, in order, followed by a terminator that matched and is consumed; a parse error comes only from an item run where the terminator had just failed |
| CombinatorLaws.ManyTillSucceeds | siscom.js:606-626 | conversely, `k` rounds followed by a matching terminator make `manyTill` return exactly the rounds' results, with the cursor after the terminator |
| CombinatorLaws.NotFollowedByLaw | siscom.js:589-604 | the corrected `notFollowedBy(p)` succeeds with undefined exactly when `p` throws a parse error; when `p` succeeds it throws at the entry cursor with `p`'s result as JSON; the cursor ends where it started unless `p` throws something else |
| CountLaws.CountLoopUnroll | siscom.js:354-368 | unrolling `k` successful attempts: the loop goes on from where they left the cursor, with their results collected |
| CountLaws.CountLoopCases | siscom.js:354-368 | every run of the loop is `k` successes and then a clean stop, or a parse error from an attempt below `min`, which escapes unchanged |
| CountLaws.CountOutcome | siscom.js:348-372 | `count` succeeds with `k` results, within its bounds, at the cursor saved after the k-th success; or it throws the error of the attempt below `min` that failed |
| CountLaws.RepeatWithinBound | siscom.js:354-368 | no more attempts succeed than `max` allows |
| CountLaws.CountErrorPropagates | siscom.js:354-360 | when the first `k < min` attempts succeed and the next fails, `count` throws exactly that error |
| CountLaws.CountSucceeds | siscom.js:348-372 | when `k` attempts succeed and the loop then stops, `count` returns exactly their results at the cursor they left |
| CountLaws.NoMinimumNeverFails | siscom.js:374-392 | with no minimum (`many`, `max`, `skipMany`, `skipMax`) the loop never throws a parse error |
| CountLaws.TimesExact | siscom.js:390-392 | `times(n, p)` returns exactly `n` results or fails |
| CountLaws.SomeFailsOnFirst | siscom.js:378-380 | `some(p)` fails exactly when the first attempt does, and with that attempt's error |
| CountLaws.SkipCountLikeCount | siscom.js:400-442 | `skipCount` consumes and fails exactly as `count` does, and returns undefined |
| CountLaws.SkipLoopLikeCount | siscom.js:400-422 | the loop of `skipCount` matches the loop of `count` step by step |
| Progress.MatchReaches | siscom.js:221-238 | consuming text that matches at the cursor reaches a later cursor |
| Progress.PeekMatches | siscom.js:37-39 | what `get()` shows always matches the source at the cursor |
| Progress.PeekReaches | siscom.js:240-311 | consuming what `get()` shows reaches a later cursor |
| Progress.PrimitiveReaches | siscom.js:207-311 | a primitive leaves the cursor where consuming some prefix of the rest of the text leaves it |
| Progress.RunReaches | siscom.js:176-626 | every parser leaves the cursor where consuming some prefix of the rest of the text would leave it, so line and column always follow the offset |
| Progress.LoopReaches | siscom.js:348-626 | the same for the looping combinators |
| Progress.WrapperReaches | siscom.js:176-604 | the same for the combinators that wrap one parser |
| Progress.CountLoopReaches | siscom.js:354-368 | the same for the loop of `count` |
| Progress.ChoiceLoopReaches | siscom.js:471-482 | the same for the loop of `choice` |
| Progress.SequenceLoopReaches | siscom.js:496-498 | the same for the loop of `sequence` |
| Progress.SepByLoopReaches | siscom.js:555-565 | the same for the loop of `sepBy1`, whose reset goes back to a cursor already reached |
| Progress.ManyTillLoopReaches | siscom.js:612-622 | the same for the loop of `manyTill` |
| Progress.RunKeepsConsistent | siscom.js:41-57 | a parse that starts where line and column agree with the offset ends at such a cursor |
| Progress.StuckSuccessRepeats | siscom.js:354-368 | a run that succeeds without moving the offset leaves the cursor unchanged, so an unbounded repetition of it would never end |
| Progress.RunErrorsLocal | siscom.js:99-102 | every parse error a run throws has the run's file and text and an offset at or after the entry offset, or -1 for `empty`'s error; so `choice`'s merges never throw |
| Progress.LoopErrorsLocal | siscom.js:348-626 | the same for the looping combinators |
| Progress.WrapperErrorsLocal | siscom.js:176-604 | the same for the combinators that wrap one parser |
| Progress.CountLoopErrorsLocal | siscom.js:354-368 | the same for the loop of `count` |
| Progress.ChoiceLoopErrorsLocal | siscom.js:471-482 | the same for the loop of `choice`, whose merged error stays local |
| Progress.SequenceLoopErrorsLocal | siscom.js:496-498 | the same for the loop of `sequence` |
| Progress.SepByLoopErrorsLocal | siscom.js:555-565 | the same for the loop of `sepBy1` |
| Progress.ManyTillLoopErrorsLocal | siscom.js:612-622 | the same for the loop of `manyTill` |
| Fuel.RunFuelMonotone | siscom.js:187-204 | a run that did not run out of fuel gives the same outcome with any more fuel |
| Fuel.CountLoopFuelMonotone | siscom.js:354-368 | the same for the loop of `count` |
| Fuel.ChoiceLoopFuelMonotone | siscom.js:471-482 | the same for the loop of `choice` |
| Fuel.SequenceLoopFuelMonotone | siscom.js:496-498 | the same for the loop of `sequence` |
| Fuel.SepByLoopFuelMonotone | siscom.js:555-565 | the same for the loop of `sepBy1` |
| Fuel.ManyTillLoopFuelMonotone | siscom.js:612-622 | the same for the loop of `manyTill` |
| Exec.ExecLiteral | siscom.js:221-238 | comparing `get(i)` to each character, then `update`, returns, throws and moves the cursor exactly as `string` is specified |
| Exec.ExecSatisfy | siscom.js:240-255 | `satisfy` on the shared cursor behaves as specified |
| Exec.ExecAnyChar | siscom.js:275-289 | `any` on the shared cursor behaves as specified |
| Exec.ExecNotChar | siscom.js:291-311 | `notChar` on the shared cursor behaves as specified |
| Exec.Exec | siscom.js:176-626 | every parser run on the shared cursor returns, throws and leaves the cursor as `Run` says |
| Exec.ExecNamed | siscom.js:176-185 | `named` on the shared cursor behaves as `Run` says |
| Exec.ExecRule | siscom.js:200-204 | `wrap` on the shared cursor behaves as `Run` says |
| Exec.ExecSkip | siscom.js:394-398 | `skip` on the shared cursor behaves as `Run` says |
| Exec.ExecOption | siscom.js:444-457 | the save, the catch and the reset of `option` behave as `Run` says |
| Exec.ExecSeq | siscom.js:504-518 | `seq` with its saved cursor behaves as `Run` says |
| Exec.ExecNotFollowedBy | siscom.js:589-604 | the corrected `notFollowedBy`, with its reset, behaves as `Run` says |
| Exec.ExecCount | siscom.js:348-372 | the loop of `count`, with its save after each success and its reset, behaves as `CountLoop` says |
| Exec.ExecChoice | siscom.js:463-486 | the loop of `choice` with its merges behaves as `ChoiceLoop` says |
| Exec.ExecSequence | siscom.js:488-502 | the loop of `sequence` behaves as `SequenceLoop` says |
| Exec.ExecSepBy1 | siscom.js:548-567 | the loop of `sepBy1`, with its save and reset, behaves as `Run` says |
| Exec.ExecManyTill | siscom.js:606-626 | the loop of `manyTill`, with its save and reset, behaves as `ManyTillLoop` says |
| Exec.LazyRule.constructor | siscom.js:187-191 | a new `lazy` starts with an empty cache |
| Exec.LazyRule.Parse | siscom.js:187-198 | on a cold cache: calls the thunk, runs as `wrap` would, and caches the parser exactly when the thunk returned one (a throwing thunk caches nothing); on a warm cache: runs the cached parser whatever the variable now holds, and keeps the cache; while the grammar is the one cached from, every run is the rule's run |
| Exec.LazyKeepsFirstParser | siscom.js:187-204 | after a first run under one grammar, `lazy` runs that grammar's parser again under a grammar that rebinds the variable, where `wrap` runs the new one |
| Defects.SepByAsWritten | siscom.js:569-571 | as written, `sepBy` throws exactly when no global `Combunators` exists, and otherwise builds the intended parser |
| Defects.SepByAsWrittenThrows | siscom.js:569-571 | as written, `sepBy` throws a `ReferenceError` for `Combunators` unless such a global exists; corrected, it returns the empty list where the first item fails |
| Defects.SepEndByAsWritten | siscom.js:585-587 | as written, the only thing building `sepEndBy` can throw is a stack overflow |
| Defects.SepEndByAsWrittenOverflows | siscom.js:585-587 | as written, `sepEndBy` overflows the stack however deep the stack is |
| Defects.SepEndByCorrected | siscom.js:585-587 | corrected, `sepEndBy` never throws a parse error, and where the first item fails it returns the empty list |
| Defects.NotFollowedByAsWritten | siscom.js:589-604 | as written, `notFollowedBy` throws a `ReferenceError` without a global `result`; a success returns undefined and keeps the cursor; a parse error stands where the inner parser left the cursor |
| Defects.NotFollowedByAsWrittenThrows | siscom.js:589-593 | as written, `notFollowedBy` throws a `ReferenceError` for `result` on every run; the corrected one throws that only when `p` does |
| Defects.NotFollowedByAsWrittenVsCorrected | siscom.js:589-604 | with a global `result`, the version as written succeeds and fails exactly when the corrected one does; it differs only when `p` succeeds, leaving the cursor where `p` left it and placing the error there |
| Defects.NotFollowedByLeavesCursor | siscom.js:594-602 | `notFollowedBy(string("a"))` on "a" leaves the offset at 1 as written, and at 0 once corrected |
| Examples.CharMatches | siscom.js:221-238 | a one-character literal at the cursor is taken, moving the offset and the column by one |
| Examples.FirstCharMismatch | siscom.js:221-238 | a literal whose first character differs fails in place, expecting the quoted literal |
| Examples.ChoiceOfTwoSecond | siscom.js:463-486 | `choice(a, b)` where `a` fails is `b` run from where `a` left the cursor |
| Examples.ChoiceOfTwoFail | siscom.js:463-486 | `choice(a, b)` where both fail throws the merge of their errors |
| Examples.SequenceOfTwoStops | siscom.js:488-502 | `sequence(a, b)` stops at the first step that fails |
| Examples.SequenceOfThree | siscom.js:488-502 | `sequence(a, b, c)` collects the three results in order |
| Examples.ChoiceTakesSecond | siscom.js:463-486 | `choice(string("x"), string("y"))` on "y" returns "y" at offset 1, column 2 |
| Examples.ChoiceFailsWithBoth | siscom.js:463-486 | on "z" it throws at offset 0 expecting both quoted literals |
| Examples.ChoiceMessage | siscom.js:114-143 | that error reads `<string>:1: expected "x" and "y"` |
| Examples.OptionFallsBack | siscom.js:444-457 | `option('x', string('a'))` on "b" returns 'x' at offset 0 |
| Examples.ManyTillComment | siscom.js:606-626 | `manyTill(any, string("*/"))` on "a b*/" returns the three characters and ends after the terminator |
| Examples.ManyTillStarts | siscom.js:606-609 | `manyTill` enters its loop with nothing collected |
| Examples.SequenceStopsAtMismatch | siscom.js:488-502 | `sequence(string("x"), string("y"))` on "xz" throws at offset 1 expecting "y", with undefined unexpected, and the "x" stays consumed |
| Examples.ChoiceDoesNotRewind | siscom.js:463-486 | `choice` does not rewind: after a failed `sequence` consumed the "x" of "xz", `string("xz")` fails at offset 1 although it matches at offset 0 |
| Examples.RightTakesLast | siscom.js:539-546 | `right(string("a"), string("b"), string("c"))` on "abc" returns "c", the last result |

## Left out

- `Parsers.regexp`, `space` and `spaces` (siscom.js:257-273, 313-314): they run the host's regular-expression engine, which is not modelled.
- `CommentStyle` (siscom.js:635-664): it is a grammar built from the combinators, not engine logic, and it refers to an undeclared `multiEnd`.
- `parseString` (siscom.js:669-676) is entry-point glue; `Cursor.Start` gives its starting cursor.
- `ParseError.prototype.toString` (siscom.js:165-168) only joins the message and `showLine` with a newline.
- The rethrow discipline of `checkParseError` and the `Error` prototype plumbing (siscom.js:10-14, 76-97): the `Error`/`Fault` split of a reply stands for them.
- Errors.Unique: `Object.keys` lists integer-like keys first, in numeric order. The model keeps insertion order for every label and proves only that each label appears once. Since the message sorts the labels anyway, this does not change any message. The one label that does change a message is `__proto__`: assigning it on a plain object sets the prototype instead of adding a key, so the library drops that label and the model keeps it.
- Js.Value: the values a parser returns or carries are undefined, null, strings and arrays of values. JavaScript numbers, booleans and other objects are not modelled: an `option(0, digit)` default, a `seq` callback that returns a number or an AST object, or an unexpected token given to `error`/`expected` as such a value cannot be written. So the model does not cover their truthiness (0, `false` and `NaN` are falsy) in `merge`'s `||` (siscom.js:111) and in the ", but found" of the message (siscom.js:125-136), nor their `String` and `JSON.stringify` forms in the message and in `notFollowedBy`'s unexpected token (siscom.js:602).
- Js.Quote: `JSON.stringify`'s escaping of lone surrogates is not modelled. Strings are sequences of characters, and the sort order is the order of those characters.
- Errors.MessageStable: the getter's in-place write of the normalized labels back into `this.expecteds` is modelled as the value function `Errors.Normalize`, not as a mutation.
- Parsing.Run: the library follows a thunk without limit and loops for ever on an unbounded repetition that succeeds without consuming. The model stops with `Fault(OutOfFuel)` or `Fault(Loops)` in those cases.
- Parsing.Run: callbacks of `seq` are either the `get` projection or an arbitrary function of the saved cursor and the results. They cannot move the cursor or throw.
- Defects.SepEndByCorrected: when the optional separator throws something other than a parse error, that is passed through. The lemma states the result only for the non-fault outcomes.
- Exec.LazyRule.Parse: a grammar variable is either bound to a parser or undeclared, which throws a `ReferenceError` from the thunk and caches nothing. A variable that is declared but not yet assigned is not modelled. Its thunk returns `undefined`, which the library caches before throwing a `TypeError` on this and every later run.
- Parsing.Lazy: the value builder is `wrap`'s deferred reference. Its runs equal `lazy`'s only while the grammar stays the one the cache was filled from; the cache itself is modelled by `Exec.LazyRule`.
- Stack depth: the model has no call stack, so deep recursion in a grammar (other than `sepEndBy` as written) is not modelled.

## Findings

| source | as written | input that shows it | evidently intended | confidence | as-written member | corrected member |
|---|---|---|---|---|---|---|
| siscom.js:570 | `sepBy` returns `Combunators.option(...)`, a name nothing defines, so every call throws a `ReferenceError` | any call, e.g. `sepBy(digit, string(","))` | `option([], sepBy1(parser, sep))` | not executed | Defects.SepByAsWritten, Defects.SepByAsWrittenThrows | CombinatorLaws.SepByLaw |
| siscom.js:586 | `sepEndBy` calls itself with the same arguments before doing anything else, so every call overflows the stack | any call, e.g. `sepEndBy(digit, string(";"))` | `left(sepBy(parser, sepEnd), optional(sepEnd))` | not executed | Defects.SepEndByAsWritten, Defects.SepEndByAsWrittenOverflows | Defects.SepEndByCorrected, CombinatorLaws.SepEndByLaw |
| siscom.js:592-593 | the declaration ends with `;`, so `result;` reads an undeclared name and every run of `notFollowedBy` throws a `ReferenceError` | any run, e.g. `notFollowedBy(string("a"))` on "b" | `result` declared with `save` | not executed | Defects.NotFollowedByAsWritten, Defects.NotFollowedByAsWrittenThrows | CombinatorLaws.NotFollowedByLaw |
| siscom.js:594-602 | when the inner parser succeeds, the error is thrown without `status.reset(save)`, at the cursor the inner parser left | `notFollowedBy(string("a"))` on "a", with a global `result` | reset to the save before throwing, as on the other path | not executed | Defects.NotFollowedByAsWritten, Defects.NotFollowedByAsWrittenVsCorrected, Defects.NotFollowedByLeavesCursor | Exec.ExecNotFollowedBy, CombinatorLaws.NotFollowedByLaw |
