/** The cursor (`Status` in siscom.js): the source text, the offset into it,
    the file name, and the 1-based line and column of the offset. */
module Cursor {

  /** A copy of every field of a `Status`: what `save()` captures. */
  datatype Snapshot = Snapshot(source: string, index: int, filename: string, line: int, column: int)

  /** The cursor at the start of a file, as the entry point creates it. */
  function Start(source: string, filename: string): Snapshot
  {
    Snapshot(source, 0, filename, 1, 1)
  }

  /** `status.get(k)`: the character `k` places ahead as a string of length one,
      or the empty string outside the source. */
  function Peek(s: Snapshot, k: int): (c: string)
    ensures |c| <= 1
    ensures c != "" <==> 0 <= s.index + k < |s.source|
    ensures c != "" ==> c[0] == s.source[s.index + k]
  {
    if 0 <= s.index + k < |s.source| then [s.source[s.index + k]] else ""
  }

  /** The position after one character. */
  function Step(s: Snapshot, c: char): (r: Snapshot)
    ensures r.index == s.index && r.source == s.source && r.filename == s.filename
    ensures c == '\n' ==> r.line == s.line + 1 && r.column == 1
    ensures c != '\n' ==> r.line == s.line && r.column == s.column + 1
  {
    if c == '\n' then s.(line := s.line + 1, column := 1) else s.(column := s.column + 1)
  }

  /** Line and column after walking over `str`, one character at a time. */
  function Walk(s: Snapshot, str: string): (r: Snapshot)
    ensures r.source == s.source && r.index == s.index && r.filename == s.filename
    decreases |str|
  {
    if str == [] then s else Step(Walk(s, str[..|str| - 1]), str[|str| - 1])
  }

  /** `status.update(str)`: the offset moves past `str`, and line and column follow its characters. */
  function Advance(s: Snapshot, str: string): (r: Snapshot)
    ensures r.source == s.source && r.filename == s.filename
    ensures r.index == s.index + |str|
  {
    Walk(s.(index := s.index + |str|), str)
  }

  /** The number of newlines in `str`. */
  function Newlines(str: string): nat
  {
    multiset(str)['\n']
  }

  /** `update` counts every newline into the line number. */
  lemma {:induction false} AdvanceLine(s: Snapshot, str: string)
    ensures Advance(s, str).line == s.line + Newlines(str)
  {
    WalkLine(s.(index := s.index + |str|), str);
  }

  lemma {:induction false} WalkLine(s: Snapshot, str: string)
    ensures Walk(s, str).line == s.line + Newlines(str)
    decreases |str|
  {
    if str != [] {
      var init := str[..|str| - 1];
      assert str == init + [str[|str| - 1]];
      WalkLine(s, init);
    }
  }

  /** `k` is the position of the last newline of `str`. */
  predicate LastNewlineAt(str: string, k: int)
  {
    0 <= k < |str| && str[k] == '\n' && forall m :: k < m < |str| ==> str[m] != '\n'
  }

  /** `update` leaves the column one past the characters after the last newline
      of `str`, or moves it by `|str|` when `str` has no newline. */
  lemma AdvanceColumn(s: Snapshot, str: string)
    ensures '\n' !in str ==> Advance(s, str).column == s.column + |str|
    ensures forall k :: LastNewlineAt(str, k) ==> Advance(s, str).column == |str| - k
  {
    WalkColumn(s.(index := s.index + |str|), str);
  }

  lemma {:induction false} WalkColumn(s: Snapshot, str: string)
    ensures (forall m :: 0 <= m < |str| ==> str[m] != '\n') ==> Walk(s, str).column == s.column + |str|
    ensures forall k :: LastNewlineAt(str, k) ==> Walk(s, str).column == |str| - k
    decreases |str|
  {
    if str != [] {
      var n := |str|;
      var init := str[..n - 1];
      WalkColumn(s, init);
      if str[n - 1] != '\n' {
        forall k | LastNewlineAt(str, k) ensures Walk(s, str).column == n - k {
          assert LastNewlineAt(init, k);
        }
      }
    }
  }

  lemma {:induction false} WalkAppend(s: Snapshot, a: string, b: string)
    ensures Walk(Walk(s, a), b) == Walk(s, a + b)
    decreases |b|
  {
    if b != [] {
      var init := b[..|b| - 1];
      assert (a + b)[..|a + b| - 1] == a + init;
      WalkAppend(s, a, init);
    } else {
      assert a + b == a;
    }
  }

  /** Advancing over `a` and then over `b` is advancing over `a + b`. */
  lemma {:induction false} AdvanceAppend(s: Snapshot, a: string, b: string)
    ensures Advance(Advance(s, a), b) == Advance(s, a + b)
  {
    var t := s.(index := s.index + |a|);
    calc {
      Advance(Advance(s, a), b);
      Walk(Walk(t, a).(index := s.index + |a| + |b|), b);
      { WalkIndex(t, a, s.index + |a| + |b|); }
      Walk(Walk(t.(index := s.index + |a| + |b|), a), b);
      { WalkAppend(t.(index := s.index + |a| + |b|), a, b); }
      Advance(s, a + b);
    }
  }

  /** The offset plays no part in how line and column move. */
  lemma {:induction false} WalkIndex(s: Snapshot, str: string, i: int)
    ensures Walk(s, str).(index := i) == Walk(s.(index := i), str)
    decreases |str|
  {
    if str != [] {
      WalkIndex(s, str[..|str| - 1], i);
    }
  }

  /** `t` is where `s` ends up after consuming some prefix of the rest of the source:
      the same text and file, and line and column recomputed over exactly the consumed text. */
  ghost predicate Reaches(s: Snapshot, t: Snapshot)
  {
    t == s || (0 <= s.index <= t.index <= |s.source| && t == Advance(s, s.source[s.index..t.index]))
  }

  lemma {:induction false} ReachesTransitive(a: Snapshot, b: Snapshot, c: Snapshot)
    requires Reaches(a, b) && Reaches(b, c)
    ensures Reaches(a, c)
  {
    if a != b && b != c {
      var src := a.source;
      AdvanceAppend(a, src[a.index..b.index], src[b.index..c.index]);
      assert src[a.index..b.index] + src[b.index..c.index] == src[a.index..c.index];
    }
  }

  /** Consuming nothing changes nothing: a cursor reached without moving the offset is the same cursor. */
  lemma ReachesSameIndex(s: Snapshot, t: Snapshot)
    requires Reaches(s, t) && t.index == s.index
    ensures t == s
  {
  }

  /** Line and column agree with the offset: they are what scanning the source from its start gives. */
  ghost predicate Consistent(s: Snapshot)
  {
    Reaches(Start(s.source, s.filename), s)
  }

  /** A live cursor: the object the parsers thread through a parse and update in place. */
  class Status {
    var source: string
    var index: int
    var filename: string
    var line: int
    var column: int

    constructor (source: string, index: int, filename: string, line: int, column: int)
      ensures Snap() == Snapshot(source, index, filename, line, column)
    {
      this.source := source;
      this.index := index;
      this.filename := filename;
      this.line := line;
      this.column := column;
    }

    function Snap(): Snapshot
      reads this
    {
      Snapshot(source, index, filename, line, column)
    }

    /** `get(k)` */
    function Get(k: int): string
      reads this
    {
      Peek(Snap(), k)
    }

    /** `update(str)`: the offset first, then line and column character by character. */
    method Update(str: string)
      modifies this
      ensures Snap() == Advance(old(Snap()), str)
    {
      var len := |str|;
      index := index + len;
      ghost var moved := Snap();
      var i := 0;
      while i < len
        invariant 0 <= i <= len
        invariant Snap() == Walk(moved, str[..i])
      {
        assert str[..i + 1][..i] == str[..i];
        if str[i] == '\n' {
          line := line + 1;
          column := 1;
        } else {
          column := column + 1;
        }
        i := i + 1;
      }
      assert str[..len] == str;
    }

    /** `save()`: a new, independent `Status` with the same fields. */
    method Save() returns (saved: Status)
      ensures fresh(saved) && saved.Snap() == Snap()
    {
      saved := new Status(source, index, filename, line, column);
    }

    /** `reset(saved)`: every field overwritten with `saved`'s. */
    method Reset(saved: Status)
      modifies this
      ensures Snap() == old(saved.Snap())
    {
      source := saved.source;
      index := saved.index;
      filename := saved.filename;
      line := saved.line;
      column := saved.column;
    }
  }

  /** Backtracking restores the cursor exactly, whatever was consumed after the save. */
  method SaveUpdateReset(st: Status, consumed: seq<string>)
    modifies st
    ensures st.Snap() == old(st.Snap())
  {
    var saved := st.Save();
    var i := 0;
    while i < |consumed|
      invariant 0 <= i <= |consumed|
      invariant saved.Snap() == old(st.Snap())
    {
      st.Update(consumed[i]);
      i := i + 1;
    }
    st.Reset(saved);
  }
}
