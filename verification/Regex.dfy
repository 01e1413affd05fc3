/**
  The part of Go's regexp package that the tuner's patterns use.  A pattern is a program for a
  backtracking matcher; alternatives are tried in the order written, a greedy repetition tries
  its longest run first and a lazy one its shortest.  The first success is the match, which is
  the leftmost-first rule of FindStringSubmatch.
 */
module Regex {
  import opened Text

  /** Character classes: \s, \S, a literal #, and the dot (anything but a line feed). */
  datatype Class = Space | NonSpace | Hash | Dot

  predicate Has(c: Class, ch: char) {
    match c
    case Space => IsSpace(ch)
    case NonSpace => !IsSpace(ch)
    case Hash => ch == '#'
    case Dot => ch != '\n'
  }

  datatype Prog =
    | Accept
    | AtEnd(next: Prog)
    | Literal(text: string, next: Prog)
    | Repeat(cls: Class, least: nat, greedy: bool, next: Prog)
    | Either(first: Prog, second: Prog)
    | Mark(next: Prog)  // records the current position, the boundary of a capture group

  /** The positions recorded by a match, in order. */
  datatype Marks = NoMarks | At(pos: nat, later: Marks)

  /** The length of the longest run of class `c` starting at `i`. */
  function RunLength(c: Class, s: string, i: nat): (n: nat)
    requires i <= |s|
    ensures i + n <= |s|
    ensures forall j :: i <= j < i + n ==> Has(c, s[j])
    ensures i + n < |s| ==> !Has(c, s[i + n])
    decreases |s| - i
  {
    if i < |s| && Has(c, s[i]) then 1 + RunLength(c, s, i + 1) else 0
  }

  /** Runs `p` on `s` from position `i`; on success, the recorded positions in order. */
  function Exec(p: Prog, s: string, i: nat): Option<Marks>
    requires i <= |s|
    decreases p, 0, 0
  {
    match p
    case Accept => Some(NoMarks)
    case AtEnd(next) => if i == |s| then Exec(next, s, i) else None
    case Literal(text, next) => if OccursAt(s, text, i) then Exec(next, s, i + |text|) else None
    case Repeat(c, least, greedy, next) => Try(next, s, i, least, RunLength(c, s, i), greedy)
    case Either(first, second) =>
      var r := Exec(first, s, i);
      if r.Some? then r else Exec(second, s, i)
    case Mark(next) => Record(i, Exec(next, s, i))
  }

  function Record(i: nat, r: Option<Marks>): Option<Marks> {
    match r
    case None => None
    case Some(marks) => Some(At(i, marks))
  }

  /** Tries `p` after skipping each of `lo..hi` characters, longest first when greedy. */
  function Try(p: Prog, s: string, i: nat, lo: nat, hi: nat, greedy: bool): Option<Marks>
    requires i + hi <= |s|
    decreases p, 1, if lo <= hi then hi - lo + 1 else 0
  {
    if lo > hi then None
    else
      var r := Exec(p, s, i + if greedy then hi else lo);
      if r.Some? || lo == hi then r
      else if greedy then Try(p, s, i, lo, hi - 1, greedy)
      else Try(p, s, i, lo + 1, hi, greedy)
  }

  /** The leftmost match of an unanchored pattern at or after `i`. */
  function Search(p: Prog, s: string, i: nat): Option<(nat, Marks)>
    requires i <= |s|
    decreases |s| - i
  {
    match Exec(p, s, i)
    case Some(marks) => Some((i, marks))
    case None => if i == |s| then None else Search(p, s, i + 1)
  }

  /** The `n`-th recorded position; 0 if there are fewer. */
  function Nth(marks: Marks, n: nat): nat {
    match marks
    case NoMarks => 0
    case At(pos, later) => if n == 0 then pos else Nth(later, n - 1)
  }

  /** The text between two recorded positions, a capture group. */
  function Group(s: string, marks: Marks, from: nat, to: nat): string {
    var a, b := Nth(marks, from), Nth(marks, to);
    if a <= b <= |s| then s[a..b] else ""
  }

  // ---------------------------------------------------------------- one step at a time

  lemma StepMark(next: Prog, s: string, i: nat)
    requires i <= |s|
    ensures Exec(Mark(next), s, i) == Record(i, Exec(next, s, i))
  {
  }

  lemma StepLiteral(text: string, next: Prog, s: string, i: nat)
    requires i <= |s|
    ensures Exec(Literal(text, next), s, i) == if OccursAt(s, text, i) then Exec(next, s, i + |text|) else None
  {
  }

  lemma StepRepeat(c: Class, least: nat, greedy: bool, next: Prog, s: string, i: nat)
    requires i <= |s|
    ensures Exec(Repeat(c, least, greedy, next), s, i) == Try(next, s, i, least, RunLength(c, s, i), greedy)
  {
  }

  lemma StepEither(first: Prog, second: Prog, s: string, i: nat)
    requires i <= |s|
    ensures Exec(Either(first, second), s, i) ==
            if Exec(first, s, i).Some? then Exec(first, s, i) else Exec(second, s, i)
  {
  }

  // ---------------------------------------------------------------- how a repetition resolves

  /** If only skipping exactly `m` characters can succeed, greed does not matter. */
  lemma {:induction false} OnlyChoice(p: Prog, s: string, i: nat, lo: nat, hi: nat, greedy: bool, m: nat)
    requires i + hi <= |s| && lo <= m <= hi
    requires forall j :: i + lo <= j <= i + hi && j != i + m ==> Exec(p, s, j).None?
    ensures Try(p, s, i, lo, hi, greedy) == Exec(p, s, i + m)
    decreases hi - lo
  {
    if lo < hi {
      if greedy && m != hi {
        OnlyChoice(p, s, i, lo, hi - 1, greedy, m);
      } else if !greedy && m != lo {
        OnlyChoice(p, s, i, lo + 1, hi, greedy, m);
      } else if Exec(p, s, i + m).None? {
        NoChoice(p, s, i, lo, hi, greedy);
      }
    }
  }

  lemma {:induction false} NoChoice(p: Prog, s: string, i: nat, lo: nat, hi: nat, greedy: bool)
    requires i + hi <= |s|
    requires forall j :: i + lo <= j <= i + hi ==> Exec(p, s, j).None?
    ensures Try(p, s, i, lo, hi, greedy).None?
    decreases if lo <= hi then hi - lo + 1 else 0
  {
    if lo < hi {
      if greedy {
        NoChoice(p, s, i, lo, hi - 1, greedy);
      } else {
        NoChoice(p, s, i, lo + 1, hi, greedy);
      }
    }
  }

  /** A lazy repetition stops at the first length from which the rest can succeed. */
  lemma {:induction false} FirstChoice(p: Prog, s: string, i: nat, lo: nat, hi: nat, m: nat)
    requires i + hi <= |s| && lo <= m <= hi
    requires forall j :: i + lo <= j < i + m ==> Exec(p, s, j).None?
    requires Exec(p, s, i + m).Some?
    ensures Try(p, s, i, lo, hi, false) == Exec(p, s, i + m)
    decreases hi - lo
  {
    if lo < m {
      FirstChoice(p, s, i, lo + 1, hi, m);
    }
  }

  /** Leading characters of class `c` are skipped entirely when the rest cannot start with one. */
  lemma {:induction false} SkipRun(c: Class, least: nat, greedy: bool, next: Prog, s: string, i: nat)
    requires i <= |s|
    requires forall j :: i <= j < |s| && Has(c, s[j]) ==> Exec(next, s, j).None?
    ensures Exec(Repeat(c, least, greedy, next), s, i) ==
            var n := RunLength(c, s, i);
            if least <= n then Exec(next, s, i + n) else None
  {
    hide Exec;
    hide Try;
    StepRepeat(c, least, greedy, next, s, i);
    var n := RunLength(c, s, i);
    if least <= n {
      OnlyChoice(next, s, i, least, n, greedy, n);
    } else {
      NoChoice(next, s, i, least, n, greedy);
    }
  }
}
