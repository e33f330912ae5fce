/** The slice of JavaScript's value and string semantics that the engine relies on:
    the values a parser can return, truthiness, `String(v)`, `JSON.stringify`,
    number formatting, the default order of `Array.prototype.sort` and `split('\n')`. */
module Js {

  /** A JavaScript value as the engine sees it: what a parser returns, what an
      error carries as its "unexpected" token. */
  datatype Value = Undefined | Null | Text(s: string) | Items(vs: seq<Value>)

  /** Exceptions that are not parse errors, and the two verdicts the model gives
      where the source never returns: a rule dereference deeper than the fuel
      allows, and a repetition that succeeded without consuming and would repeat
      the same step forever. */
  datatype Fault =
    | ReferenceError(name: string)
    | RangeError(what: string)
    | Thrown(message: string)
    | ThrownNull
    | OutOfFuel
    | Loops

  datatype Maybe<T> = Nothing | Just(value: T)

  /** The outcome of a computation that may throw something other than a parse error. */
  datatype Result<T> = Success(value: T) | Failure(fault: Fault)

  /** `!!v` */
  predicate Truthy(v: Value)
    ensures !Truthy(v) <==> v == Undefined || v == Null || v == Text("")
  {
    match v
    case Undefined => false
    case Null => false
    case Text(s) => s != ""
    case Items(_) => true
  }

  /** `String(v)`: arrays are joined with commas, and their undefined and null elements print as nothing. */
  function Display(v: Value): (r: string)
    ensures v.Text? ==> r == v.s
    ensures v.Items? && |v.vs| == 1 && v.vs[0].Text? ==> r == v.vs[0].s
    ensures v.Items? && v.vs == [] ==> r == ""
  {
    match v
    case Undefined => "undefined"
    case Null => "null"
    case Text(s) => s
    case Items(vs) => JoinDisplay(vs)
  }

  function JoinDisplay(vs: seq<Value>): string
    decreases vs
  {
    if vs == [] then ""
    else
      var head := if vs[0].Undefined? || vs[0].Null? then "" else Display(vs[0]);
      if |vs| == 1 then head else head + "," + JoinDisplay(vs[1..])
  }

  /** The escape sequence `JSON.stringify` writes for one character of a string. */
  function EscapeChar(c: char): string
  {
    if c == '"' then "\\\""
    else if c == '\\' then "\\\\"
    else if c == 8 as char then "\\b"
    else if c == 12 as char then "\\f"
    else if c == '\n' then "\\n"
    else if c == '\r' then "\\r"
    else if c == '\t' then "\\t"
    else if c < ' ' then "\\u00" + [HexDigit(c as int / 16), HexDigit(c as int % 16)]
    else [c]
  }

  function HexDigit(d: int): char
    requires 0 <= d < 16
  {
    if d < 10 then ('0' as int + d) as char else ('a' as int + d - 10) as char
  }

  function Escape(s: string): string
  {
    if s == [] then [] else EscapeChar(s[0]) + Escape(s[1..])
  }

  /** `JSON.stringify(s)` for a string: the label form of a literal. */
  function Quote(s: string): (q: string)
    ensures |q| >= 2 && q[0] == '"' && q[|q| - 1] == '"'
  {
    "\"" + Escape(s) + "\""
  }

  /** `JSON.stringify(v)`, which yields undefined (not a string) for undefined. */
  function Stringify(v: Value): (r: Value)
    ensures r.Undefined? <==> v.Undefined?
    ensures !r.Undefined? ==> r.Text? && |r.s| >= 2
    ensures v.Text? ==> r == Text(Quote(v.s))
  {
    match v
    case Undefined => Undefined
    case Null => Text("null")
    case Text(s) => Text(Quote(s))
    case Items(vs) => Text("[" + StringifyItems(vs) + "]")
  }

  function StringifyItems(vs: seq<Value>): string
    decreases vs
  {
    if vs == [] then ""
    else
      var head := match Stringify(vs[0]) case Text(t) => t case _ => "null";
      if |vs| == 1 then head else head + "," + StringifyItems(vs[1..])
  }

  /** Decimal digits of a natural number, as `String(n)` writes them. */
  function NatToString(n: nat): (r: string)
    ensures |r| >= 1
    ensures forall i :: 0 <= i < |r| ==> '0' <= r[i] <= '9'
    decreases n
  {
    if n < 10 then [('0' as int + n) as char]
    else NatToString(n / 10) + [('0' as int + n % 10) as char]
  }

  /** `String(n)` for an integer. */
  function IntToString(n: int): string
  {
    if n < 0 then "-" + NatToString(-n) else NatToString(n)
  }

  /** The order `Array.prototype.sort()` uses by default: lexicographic on characters. */
  predicate LexLeq(a: string, b: string)
    decreases |a|
  {
    a == [] || (b != [] && (a[0] < b[0] || (a[0] == b[0] && LexLeq(a[1..], b[1..]))))
  }

  lemma {:induction false} LexLeqTotal(a: string, b: string)
    ensures LexLeq(a, b) || LexLeq(b, a)
    decreases |a|
  {
    if a != [] && b != [] && a[0] == b[0] {
      LexLeqTotal(a[1..], b[1..]);
    }
  }

  lemma {:induction false} LexLeqAntisymmetric(a: string, b: string)
    requires LexLeq(a, b) && LexLeq(b, a)
    ensures a == b
    decreases |a|
  {
    if a != [] {
      LexLeqAntisymmetric(a[1..], b[1..]);
      assert a == [a[0]] + a[1..] && b == [b[0]] + b[1..];
    }
  }

  lemma {:induction false} LexLeqTransitive(a: string, b: string, c: string)
    requires LexLeq(a, b) && LexLeq(b, c)
    ensures LexLeq(a, c)
    decreases |a|
  {
    if a != [] && a[0] == b[0] && b[0] == c[0] {
      LexLeqTransitive(a[1..], b[1..], c[1..]);
    }
  }

  predicate Sorted(xs: seq<string>)
  {
    forall i, j :: 0 <= i < j < |xs| ==> LexLeq(xs[i], xs[j])
  }

  function Insert(x: string, xs: seq<string>): (r: seq<string>)
    requires Sorted(xs)
    ensures Sorted(r) && multiset(r) == multiset(xs) + multiset{x}
    decreases xs
  {
    if xs == [] then [x]
    else if LexLeq(x, xs[0]) then
      InsertFront(x, xs);
      [x] + xs
    else
      LexLeqTotal(x, xs[0]);
      var rest := Insert(x, xs[1..]);
      InsertBehind(x, xs, rest);
      [xs[0]] + rest
  }

  lemma InsertFront(x: string, xs: seq<string>)
    requires Sorted(xs) && xs != [] && LexLeq(x, xs[0])
    ensures Sorted([x] + xs)
  {
    forall j | 0 <= j < |xs| ensures LexLeq(x, xs[j]) {
      if j > 0 { LexLeqTransitive(x, xs[0], xs[j]); }
    }
  }

  lemma InsertBehind(x: string, xs: seq<string>, rest: seq<string>)
    requires Sorted(xs) && xs != [] && LexLeq(xs[0], x)
    requires Sorted(rest) && multiset(rest) == multiset(xs[1..]) + multiset{x}
    ensures Sorted([xs[0]] + rest) && multiset([xs[0]] + rest) == multiset(xs) + multiset{x}
  {
    assert xs == [xs[0]] + xs[1..];
    forall j | 0 <= j < |rest| ensures LexLeq(xs[0], rest[j]) {
      assert rest[j] in multiset(rest);
      assert rest[j] == x || rest[j] in multiset(xs[1..]);
      if rest[j] != x {
        var k :| 1 <= k < |xs| && xs[k] == rest[j];
      }
    }
  }

  /** `xs.sort()` on an array of strings: the same strings, in order. */
  function Sort(xs: seq<string>): (r: seq<string>)
    ensures Sorted(r) && multiset(r) == multiset(xs)
    decreases |xs|
  {
    if xs == [] then []
    else
      assert xs == xs[..|xs| - 1] + [xs[|xs| - 1]];
      Insert(xs[|xs| - 1], Sort(xs[..|xs| - 1]))
  }

  lemma {:induction false} LexLeqReflexive(a: string)
    ensures LexLeq(a, a)
    decreases |a|
  {
    if a != [] { LexLeqReflexive(a[1..]); }
  }

  /** Two sorted lists without duplicates that hold the same strings are the same list. */
  lemma {:induction false} SortedDistinctUnique(a: seq<string>, b: seq<string>)
    requires Sorted(a) && Sorted(b) && Distinct(a) && Distinct(b)
    requires forall x :: x in a <==> x in b
    ensures a == b
    decreases |a|
  {
    if a != [] {
      assert a[0] in b;
      assert b != [];
      assert b[0] in b;
      assert b[0] in a;
      assert a == [a[0]] + a[1..] && b == [b[0]] + b[1..];
      var i :| 0 <= i < |a| && a[i] == b[0];
      var j :| 0 <= j < |b| && b[j] == a[0];
      if i > 0 { assert LexLeq(a[0], a[i]); }
      if j > 0 { assert LexLeq(b[0], b[j]); }
      LexLeqReflexive(a[0]);
      LexLeqAntisymmetric(a[0], b[0]);
      forall x ensures x in a[1..] <==> x in b[1..] {
        if x in a[1..] {
          var k :| 1 <= k < |a| && a[k] == x;
          assert x != a[0];
          assert x in b;
          var m :| 0 <= m < |b| && b[m] == x;
          assert m != 0;
          assert b[1..][m - 1] == x;
        }
        if x in b[1..] {
          var k :| 1 <= k < |b| && b[k] == x;
          assert x != b[0];
          assert x in a;
          var m :| 0 <= m < |a| && a[m] == x;
          assert m != 0;
          assert a[1..][m - 1] == x;
        }
      }
      SortedDistinctUnique(a[1..], b[1..]);
    }
  }

  predicate Distinct(xs: seq<string>)
  {
    forall i, j :: 0 <= i < j < |xs| ==> xs[i] != xs[j]
  }

  lemma {:induction false} DistinctCount(xs: seq<string>, x: string)
    requires Distinct(xs)
    ensures multiset(xs)[x] <= 1
    decreases |xs|
  {
    if xs != [] {
      assert xs == [xs[0]] + xs[1..];
      DistinctCount(xs[1..], x);
      if xs[0] == x {
        assert x !in xs[1..] by {
          forall m | 1 <= m < |xs| ensures xs[m] != x { }
        }
      }
    }
  }

  lemma CountPair(ys: seq<string>, i: nat, j: nat)
    requires i < j < |ys|
    ensures ys[i] == ys[j] ==> multiset(ys)[ys[i]] >= 2
  {
    assert ys == ys[..i] + [ys[i]] + ys[i + 1..j] + [ys[j]] + ys[j + 1..];
  }

  lemma {:induction false} DistinctMultiset(xs: seq<string>, ys: seq<string>)
    requires Distinct(xs) && multiset(ys) == multiset(xs)
    ensures Distinct(ys)
  {
    forall i, j | 0 <= i < j < |ys| ensures ys[i] != ys[j] {
      DistinctCount(xs, ys[i]);
      CountPair(ys, i, j);
    }
  }

  function Join(parts: seq<string>, sep: string): string
    decreases |parts|
  {
    if parts == [] then ""
    else if |parts| == 1 then parts[0]
    else parts[0] + sep + Join(parts[1..], sep)
  }

  /** `s.split('\n')`: the pieces between newlines; joining them back with newlines gives `s`. */
  function Lines(s: string): (r: seq<string>)
    ensures |r| >= 1
    ensures Join(r, "\n") == s
    ensures forall i :: 0 <= i < |r| ==> '\n' !in r[i]
    decreases |s|
  {
    if s == [] then [""]
    else
      var rest := Lines(s[1..]);
      assert s == [s[0]] + s[1..];
      if s[0] == '\n' then [""] + rest
      else
        assert '\n' !in [s[0]] + rest[0];
        [[s[0]] + rest[0]] + rest[1..]
  }

  /** `s.slice(start, end)` for a non-negative start. */
  function Slice(s: string, start: nat, end: int): (r: string)
    ensures |r| <= |s|
  {
    var a := if start <= |s| then start else |s|;
    var b := if end <= a then a else if end <= |s| then end else |s|;
    s[a..b]
  }

  /** `Array(n + 1).join(' ')`: n spaces. */
  function Spaces(n: nat): (r: string)
    ensures |r| == n && forall i :: 0 <= i < n ==> r[i] == ' '
  {
    seq(n, _ => ' ')
  }
}
