/**
  The grammar of configuration lines (tune_settings.go): the two patterns, the parser built on
  them, and what that parser accepts, stated without backtracking.
 */
module TuneSettings {
  import opened Text
  import opened Regex

  /** What is known about the line of a parameter.  A missing parameter has no result at all. */
  datatype ParseResult = ParseResult(idx: nat, commented: bool, key: string, value: string, extra: string)

  // ---------------------------------------------------------------- the patterns

  /** $ and the end of the last capture group */
  const EndOfLine := AtEnd(Mark(Accept))

  /** (?:#.*|) */
  const EndOrComment := Either(Literal("#", Repeat(Dot, 0, true, EndOfLine)), EndOfLine)

  /** (\s*(?:#.*|))$ */
  const Tail := Repeat(Space, 0, true, EndOrComment)

  /** (\S+?) and the tail */
  const PlainEnd := Mark(Mark(Tail))
  const PlainValue := Mark(Repeat(NonSpace, 1, false, PlainEnd))

  /** '(.+?)' and the tail */
  const QuotedEnd := Mark(Literal("'", Mark(Tail)))
  const QuotedValue := Literal("'", Mark(Repeat(Dot, 1, false, QuotedEnd)))

  /** =\s* and the value */
  function Assign(value: Prog): Prog {
    Literal("=", Repeat(Space, 0, true, value))
  }

  /** (key)\s*=\s* and the value */
  function Body(key: string, value: Prog): Prog {
    Mark(Literal(key, Mark(Repeat(Space, 0, true, Assign(value)))))
  }

  /** #+?\s* and the body */
  function HashBody(key: string, value: Prog): Prog {
    Repeat(Hash, 1, false, Repeat(Space, 0, true, Body(key, value)))
  }

  /** ^(\s*#+?\s*)? and the body */
  function Pattern(key: string, value: Prog): Prog {
    Mark(Either(Repeat(Space, 0, true, HashBody(key, value)), Body(key, value)))
  }

  function KeyToRegex(key: string): Prog {
    Pattern(key, PlainValue)
  }

  function KeyToRegexQuoted(key: string): Prog {
    Pattern(key, QuotedValue)
  }

  /** Capture groups: 0-1 comment marker, 1-2 key, 3-4 value, 5-6 what follows the value. */
  function ParseWithRegex(line: string, regex: Prog): Option<ParseResult> {
    match Exec(regex, line, 0)
    case None => None
    case Some(m) =>
      Some(ParseResult(0, |Group(line, m, 0, 1)| > 0, Group(line, m, 1, 2), Group(line, m, 3, 4), Group(line, m, 5, 6)))
  }

  // ---------------------------------------------------------------- the grammar, declaratively

  /** A parameter name: the characters that delimit names do not occur in it. */
  predicate KeyLike(key: string) {
    |key| > 0 && forall i :: 0 <= i < |key| ==> !IsSpace(key[i]) && key[i] != '#' && key[i] != '=' && key[i] != '\''
  }

  predicate NoSpace(s: string) {
    forall i :: 0 <= i < |s| ==> !IsSpace(s[i])
  }

  predicate OneLine(s: string) {
    forall i :: 0 <= i < |s| ==> s[i] != '\n'
  }

  predicate AllHashes(s: string) {
    forall i :: 0 <= i < |s| ==> s[i] == '#'
  }

  /** White space, then nothing or a comment. */
  predicate IsTail(t: string) {
    TailAt(t, 0)
  }

  predicate TailAt(s: string, i: nat)
    requires i <= |s|
  {
    var j := i + RunLength(Space, s, i);
    j == |s| || (s[j] == '#' && j + RunLength(Dot, s, j) == |s|)
  }

  /** Either nothing, or white space, one or more #, and white space. */
  datatype Lead = Bare | Commented(before: string, hashes: string, after: string)
  {
    predicate Valid() {
      Commented? ==> AllSpace(before) && |hashes| > 0 && AllHashes(hashes) && AllSpace(after)
    }

    function Text(): string {
      if Bare? then "" else before + hashes + after
    }
  }

  /** `line` is lead key ws = ws rest. */
  predicate Splits(line: string, lead: Lead, key: string, ws1: string, ws2: string, rest: string) {
    lead.Valid() && AllSpace(ws1) && AllSpace(ws2) &&
    line == lead.Text() + key + ws1 + "=" + ws2 + rest
  }

  /** `v` is the shortest legal unquoted value of `rest`, and `extra` is what follows it. */
  predicate PlainSplit(rest: string, v: string, extra: string) {
    rest == v + extra && |v| > 0 && NoSpace(v) && IsTail(extra) &&
    forall n :: 1 <= n < |v| ==> !IsTail(rest[n..])
  }

  /** `v` is the shortest legal quoted value of `rest`, and `extra` is what follows it. */
  predicate QuotedSplit(rest: string, v: string, extra: string) {
    rest == "'" + v + "'" + extra && |v| > 0 && OneLine(v) && IsTail(extra) &&
    forall n :: 2 <= n <= |v| ==> !(rest[n] == '\'' && IsTail(rest[n + 1..]))
  }

  // ---------------------------------------------------------------- runs of characters

  lemma {:induction false} RunLengthIs(c: Class, s: string, i: nat, n: nat)
    requires i + n <= |s|
    requires forall j :: i <= j < i + n ==> Has(c, s[j])
    requires i + n < |s| ==> !Has(c, s[i + n])
    ensures RunLength(c, s, i) == n
    decreases n
  {
    if n > 0 {
      RunLengthIs(c, s, i + 1, n - 1);
    }
  }

  lemma {:induction false} RunAtLeast(c: Class, s: string, i: nat, n: nat)
    requires i + n <= |s|
    requires forall j :: i <= j < i + n ==> Has(c, s[j])
    ensures RunLength(c, s, i) >= n
    decreases n
  {
    if n > 0 {
      RunAtLeast(c, s, i + 1, n - 1);
    }
  }

  lemma RunLengthDrop(c: Class, s: string, i: nat)
    requires i <= |s|
    ensures RunLength(c, s[i..], 0) == RunLength(c, s, i)
  {
    RunLengthIs(c, s[i..], 0, RunLength(c, s, i));
  }

  lemma TailDrop(s: string, i: nat)
    requires i <= |s|
    ensures IsTail(s[i..]) == TailAt(s, i)
  {
    RunLengthDrop(Space, s, i);
    var n := RunLength(Space, s, i);
    assert s[i..][n..] == s[i + n..];
    RunLengthDrop(Dot, s, i + n);
    RunLengthDrop(Dot, s[i..], n);
  }

  // ---------------------------------------------------------------- the patterns, resolved

  lemma ExecEndOfLine(s: string, j: nat)
    requires j <= |s|
    ensures Exec(EndOfLine, s, j) == if j == |s| then Some(At(|s|, NoMarks)) else None
  {
    assert Exec(Mark(Accept), s, j) == Some(At(j, NoMarks));
  }

  lemma ExecEndOrComment(s: string, j: nat)
    requires j <= |s|
    ensures Exec(EndOrComment, s, j) ==
            if j == |s| || (s[j] == '#' && j + RunLength(Dot, s, j) == |s|) then Some(At(|s|, NoMarks)) else None
  {
    OccursSingle(s, '#', j);
    ExecEndOfLine(s, j);
    var comment := Repeat(Dot, 0, true, EndOfLine);
    if j < |s| && s[j] == '#' {
      assert RunLength(Dot, s, j) == 1 + RunLength(Dot, s, j + 1);
      forall i | j < i <= |s| ensures Exec(EndOfLine, s, i) == if i == |s| then Some(At(|s|, NoMarks)) else None {
        ExecEndOfLine(s, i);
      }
      SkipRun(Dot, 0, true, EndOfLine, s, j + 1);
      assert Exec(Literal("#", comment), s, j) == Exec(comment, s, j + 1);
    } else {
      assert Exec(Literal("#", comment), s, j) == None;
    }
  }

  lemma ExecTail(s: string, i: nat)
    requires i <= |s|
    ensures Exec(Tail, s, i) == if TailAt(s, i) then Some(At(|s|, NoMarks)) else None
  {
    hide Exec;
    hide RunLength;
    forall j | i <= j <= |s|
      ensures Exec(EndOrComment, s, j) ==
              if j == |s| || (s[j] == '#' && j + RunLength(Dot, s, j) == |s|) then Some(At(|s|, NoMarks)) else None
    {
      ExecEndOrComment(s, j);
    }
    SkipRun(Space, 0, true, EndOrComment, s, i);
  }

  /** The position of the name, if the line has one. */
  function KeyStart(s: string): (r: nat)
    ensures r <= |s|
  {
    var a := RunLength(Space, s, 0);
    var h := RunLength(Hash, s, a);
    if h == 0 then 0 else a + h + RunLength(Space, s, a + h)
  }

  /** The position right after `key = `, if the line starts that way. */
  function ValueStart(s: string, key: string): (r: Option<nat>)
    ensures r.Some? ==> r.value <= |s|
  {
    var j := KeyStart(s);
    if !OccursAt(s, key, j) then None
    else
      var e := j + |key| + RunLength(Space, s, j + |key|);
      if OccursAt(s, "=", e) then Some(e + 1 + RunLength(Space, s, e + 1)) else None
  }

  lemma ExecAssign(value: Prog, s: string, e: nat)
    requires e <= |s|
    requires forall i :: 0 <= i < |s| && IsSpace(s[i]) ==> Exec(value, s, i).None?
    ensures Exec(Assign(value), s, e) ==
            if OccursAt(s, "=", e) then Exec(value, s, e + 1 + RunLength(Space, s, e + 1)) else None
  {
    hide Exec;
    StepLiteral("=", Repeat(Space, 0, true, value), s, e);
    if OccursAt(s, "=", e) {
      SkipRun(Space, 0, true, value, s, e + 1);
    }
  }

  lemma ExecSpacedAssign(value: Prog, s: string, d: nat)
    requires d <= |s|
    requires forall i :: 0 <= i < |s| && IsSpace(s[i]) ==> Exec(value, s, i).None?
    ensures Exec(Repeat(Space, 0, true, Assign(value)), s, d) ==
            Exec(Assign(value), s, d + RunLength(Space, s, d))
  {
    hide Exec;
    hide RunLength;
    forall i | d <= i < |s| && Has(Space, s[i]) ensures Exec(Assign(value), s, i).None? {
      OccursSingle(s, '=', i);
      ExecAssign(value, s, i);
    }
    hide Assign;
    SkipRun(Space, 0, true, Assign(value), s, d);
  }

  lemma {:induction false} ExecBody(key: string, value: Prog, s: string, j: nat)
    requires j <= |s|
    requires forall i :: 0 <= i < |s| && IsSpace(s[i]) ==> Exec(value, s, i).None?
    ensures Exec(Body(key, value), s, j) ==
            if !OccursAt(s, key, j) then None
            else
              var e := j + |key| + RunLength(Space, s, j + |key|);
              if !OccursAt(s, "=", e) then None
              else Record(j, Record(j + |key|, Exec(value, s, e + 1 + RunLength(Space, s, e + 1))))
  {
    hide Exec;
    hide RunLength;
    hide Assign;
    var spaced := Repeat(Space, 0, true, Assign(value));
    StepMark(Literal(key, Mark(spaced)), s, j);
    StepLiteral(key, Mark(spaced), s, j);
    if OccursAt(s, key, j) {
      var d := j + |key|;
      ExecSpacedAssign(value, s, d);
      ExecAssign(value, s, d + RunLength(Space, s, d));
      StepMark(spaced, s, d);
    }
  }

  lemma BodyNeedsKey(key: string, value: Prog, s: string, j: nat)
    requires KeyLike(key) && j <= |s|
    requires j < |s| ==> IsSpace(s[j]) || s[j] == '#'
    ensures Exec(Body(key, value), s, j).None?
  {
    if OccursAt(s, key, j) {
      OccursChar(s, key, j, 0);
    }
    assert Exec(Literal(key, Mark(Repeat(Space, 0, true, Assign(value)))), s, j) == None;
  }

  lemma ExecSpacedBody(key: string, value: Prog, s: string, j: nat)
    requires KeyLike(key) && j <= |s|
    ensures Exec(Repeat(Space, 0, true, Body(key, value)), s, j) ==
            Exec(Body(key, value), s, j + RunLength(Space, s, j))
  {
    hide Exec;
    hide RunLength;
    hide Body;
    forall i | j <= i < |s| && Has(Space, s[i]) ensures Exec(Body(key, value), s, i).None? {
      BodyNeedsKey(key, value, s, i);
    }
    SkipRun(Space, 0, true, Body(key, value), s, j);
  }

  /** From a run of # on, the comment marker is read to its end. */
  lemma ExecHashBody(key: string, value: Prog, s: string, a: nat)
    requires KeyLike(key) && a <= |s|
    ensures Exec(HashBody(key, value), s, a) ==
            var h := RunLength(Hash, s, a);
            if h == 0 then None else Exec(Body(key, value), s, a + h + RunLength(Space, s, a + h))
  {
    hide Exec;
    hide RunLength;
    hide Body;
    hide KeyLike;
    var spaced := Repeat(Space, 0, true, Body(key, value));
    forall j | a <= j < |s| && Has(Hash, s[j]) ensures Exec(spaced, s, j).None? {
      ExecSpacedBody(key, value, s, j);
      RunLengthIs(Space, s, j, 0);
      BodyNeedsKey(key, value, s, j);
    }
    SkipRun(Hash, 1, false, spaced, s, a);
    var h := RunLength(Hash, s, a);
    ExecSpacedBody(key, value, s, a + h);
  }

  /** The optional comment marker is read completely, whatever greed its parts have. */
  lemma ExecLead(key: string, value: Prog, s: string)
    requires KeyLike(key)
    ensures Exec(Pattern(key, value), s, 0) == Record(0, Exec(Body(key, value), s, KeyStart(s)))
  {
    hide Exec;
    hide RunLength;
    hide Body;
    hide HashBody;
    hide KeyLike;
    var body, hashed := Body(key, value), HashBody(key, value);
    forall j | 0 <= j < |s| && Has(Space, s[j]) ensures Exec(hashed, s, j).None? {
      RunLengthIs(Hash, s, j, 0);
      ExecHashBody(key, value, s, j);
    }
    var led := Repeat(Space, 0, true, hashed);
    SkipRun(Space, 0, true, hashed, s, 0);
    var a := RunLength(Space, s, 0);
    ExecHashBody(key, value, s, a);
    if RunLength(Hash, s, a) > 0 {
      BodyNeedsKey(key, value, s, 0);
    }
    StepEither(led, body, s, 0);
    StepMark(Either(led, body), s, 0);
  }

  lemma {:induction false} ExecPattern(key: string, value: Prog, s: string)
    requires KeyLike(key)
    requires forall i :: 0 <= i < |s| && IsSpace(s[i]) ==> Exec(value, s, i).None?
    ensures Exec(Pattern(key, value), s, 0) ==
            match ValueStart(s, key)
            case None => None
            case Some(f) => Record(0, Record(KeyStart(s), Record(KeyStart(s) + |key|, Exec(value, s, f))))
  {
    hide Exec;
    hide RunLength;
    hide Body;
    hide KeyStart;
    hide KeyLike;
    hide Pattern;
    ExecLead(key, value, s);
    ExecBody(key, value, s, KeyStart(s));
  }

  /** The first position in `lo..hi` where a tail starts. */
  function FirstTail(s: string, lo: nat, hi: nat): (r: Option<nat>)
    requires hi <= |s|
    ensures r.Some? ==> lo <= r.value <= hi && TailAt(s, r.value)
    ensures r.Some? ==> forall j :: lo <= j < r.value ==> !TailAt(s, j)
    ensures r.None? ==> forall j :: lo <= j <= hi ==> !TailAt(s, j)
    decreases if lo <= hi then hi - lo + 1 else 0
  {
    if lo > hi then None else if TailAt(s, lo) then Some(lo) else FirstTail(s, lo + 1, hi)
  }

  lemma ExecPlainValue(s: string, f: nat)
    requires f <= |s|
    ensures Exec(PlainValue, s, f) ==
            match FirstTail(s, f + 1, f + RunLength(NonSpace, s, f))
            case None => None
            case Some(e) => Some(At(f, At(e, At(e, At(|s|, NoMarks)))))
  {
    hide Exec;
    hide Try;
    hide TailAt;
    hide RunLength;
    var m := RunLength(NonSpace, s, f);
    forall j | f <= j <= f + m
      ensures Exec(PlainEnd, s, j) == if TailAt(s, j) then Some(At(j, At(j, At(|s|, NoMarks)))) else None
    {
      ExecTail(s, j);
      StepMark(Tail, s, j);
      StepMark(Mark(Tail), s, j);
    }
    match FirstTail(s, f + 1, f + m) {
      case None => NoChoice(PlainEnd, s, f, 1, m, false);
      case Some(e) => FirstChoice(PlainEnd, s, f, 1, m, e - f);
    }
    StepRepeat(NonSpace, 1, false, PlainEnd, s, f);
    StepMark(Repeat(NonSpace, 1, false, PlainEnd), s, f);
  }

  /** A closing quote followed by a tail. */
  predicate QuoteEndsAt(s: string, j: nat) {
    j < |s| && s[j] == '\'' && TailAt(s, j + 1)
  }

  lemma ExecQuotedEnd(s: string, j: nat)
    requires j <= |s|
    ensures Exec(QuotedEnd, s, j) == if QuoteEndsAt(s, j) then Some(At(j, At(j + 1, At(|s|, NoMarks)))) else None
  {
    OccursSingle(s, '\'', j);
    if j < |s| && s[j] == '\'' {
      ExecTail(s, j + 1);
      assert Exec(Mark(Tail), s, j + 1) == Record(j + 1, Exec(Tail, s, j + 1));
      assert Exec(Literal("'", Mark(Tail)), s, j) == Exec(Mark(Tail), s, j + 1);
    } else {
      assert Exec(Literal("'", Mark(Tail)), s, j) == None;
    }
  }

  function FirstQuoteEnd(s: string, lo: nat, hi: nat): (r: Option<nat>)
    requires hi <= |s|
    ensures r.Some? ==> lo <= r.value <= hi && QuoteEndsAt(s, r.value)
    ensures r.Some? ==> forall j :: lo <= j < r.value ==> !QuoteEndsAt(s, j)
    ensures r.None? ==> forall j :: lo <= j <= hi ==> !QuoteEndsAt(s, j)
    decreases if lo <= hi then hi - lo + 1 else 0
  {
    if lo > hi then None else if QuoteEndsAt(s, lo) then Some(lo) else FirstQuoteEnd(s, lo + 1, hi)
  }

  lemma {:induction false} ExecQuotedValue(s: string, f: nat)
    requires f <= |s|
    ensures Exec(QuotedValue, s, f) ==
            if f < |s| && s[f] == '\'' then
              match FirstQuoteEnd(s, f + 2, f + 1 + RunLength(Dot, s, f + 1))
              case None => None
              case Some(e) => Some(At(f + 1, At(e, At(e + 1, At(|s|, NoMarks)))))
            else None
  {
    hide Exec;
    hide Try;
    hide TailAt;
    hide RunLength;
    OccursSingle(s, '\'', f);
    var lazy := Repeat(Dot, 1, false, QuotedEnd);
    if f < |s| && s[f] == '\'' {
      var m := RunLength(Dot, s, f + 1);
      forall j | f < j <= f + 1 + m
        ensures Exec(QuotedEnd, s, j) == if QuoteEndsAt(s, j) then Some(At(j, At(j + 1, At(|s|, NoMarks)))) else None
      {
        ExecQuotedEnd(s, j);
      }
      match FirstQuoteEnd(s, f + 2, f + 1 + m) {
        case None => NoChoice(QuotedEnd, s, f + 1, 1, m, false);
        case Some(e) => FirstChoice(QuotedEnd, s, f + 1, 1, m, e - f - 1);
      }
      StepRepeat(Dot, 1, false, QuotedEnd, s, f + 1);
      StepMark(lazy, s, f + 1);
    }
    StepLiteral("'", Mark(lazy), s, f);
  }

  function Seven(a: nat, b: nat, c: nat, d: nat, e: nat, f: nat, g: nat): Marks {
    At(a, At(b, At(c, At(d, At(e, At(f, At(g, NoMarks)))))))
  }

  lemma NthOfSeven(a: nat, b: nat, c: nat, d: nat, e: nat, f: nat, g: nat)
    ensures var m := Seven(a, b, c, d, e, f, g);
            Nth(m, 0) == a && Nth(m, 1) == b && Nth(m, 2) == c && Nth(m, 3) == d &&
            Nth(m, 4) == e && Nth(m, 5) == f && Nth(m, 6) == g
  {
    var last := At(g, NoMarks);
    var l5 := At(f, last);
    var l4 := At(e, l5);
    var l3 := At(d, l4);
    var l2 := At(c, l3);
    assert Nth(l5, 1) == g && Nth(l4, 2) == g && Nth(l4, 1) == f;
    assert Nth(l3, 3) == g && Nth(l3, 2) == f && Nth(l3, 1) == e;
    assert Nth(l2, 4) == g && Nth(l2, 3) == f && Nth(l2, 2) == e && Nth(l2, 1) == d;
    var l1 := At(b, l2);
    assert Nth(l1, 5) == g && Nth(l1, 4) == f && Nth(l1, 3) == e && Nth(l1, 2) == d && Nth(l1, 1) == c;
  }

  lemma KeyThere(s: string, key: string)
    requires ValueStart(s, key).Some?
    ensures var j := KeyStart(s); j + |key| <= ValueStart(s, key).value && s[j..j + |key|] == key
  {
    hide RunLength;
    hide KeyStart;
  }

  lemma ExecPlain(s: string, key: string)
    requires KeyLike(key)
    ensures Exec(KeyToRegex(key), s, 0) ==
            match ValueStart(s, key)
            case None => None
            case Some(f) =>
              match FirstTail(s, f + 1, f + RunLength(NonSpace, s, f))
              case None => None
              case Some(e) => Some(Seven(0, KeyStart(s), KeyStart(s) + |key|, f, e, e, |s|))
  {
    hide Exec;
    hide RunLength;
    hide TailAt;
    hide FirstTail;
    hide KeyLike;
    hide Pattern;
    hide ValueStart;
    forall i | 0 <= i < |s| && IsSpace(s[i]) ensures Exec(PlainValue, s, i).None? {
      ExecPlainValue(s, i);
      RunLengthIs(NonSpace, s, i, 0);
    }
    ExecPattern(key, PlainValue, s);
    if ValueStart(s, key).Some? {
      ExecPlainValue(s, ValueStart(s, key).value);
    }
  }

  lemma ExecQuoted(s: string, key: string)
    requires KeyLike(key)
    ensures Exec(KeyToRegexQuoted(key), s, 0) ==
            match ValueStart(s, key)
            case None => None
            case Some(f) =>
              if f < |s| && s[f] == '\'' then
                match FirstQuoteEnd(s, f + 2, f + 1 + RunLength(Dot, s, f + 1))
                case None => None
                case Some(e) => Some(Seven(0, KeyStart(s), KeyStart(s) + |key|, f + 1, e, e + 1, |s|))
              else None
  {
    hide Exec;
    hide RunLength;
    hide TailAt;
    hide FirstQuoteEnd;
    hide KeyLike;
    hide Pattern;
    hide ValueStart;
    forall i | 0 <= i < |s| && IsSpace(s[i]) ensures Exec(QuotedValue, s, i).None? {
      ExecQuotedValue(s, i);
    }
    ExecPattern(key, QuotedValue, s);
    if ValueStart(s, key).Some? {
      ExecQuotedValue(s, ValueStart(s, key).value);
    }
  }

  lemma ParsedFrom(line: string, regex: Prog, j: nat, k: nat, f: nat, e: nat, g: nat)
    requires j <= k <= |line| && f <= e <= |line| && g <= |line|
    requires Exec(regex, line, 0) == Some(Seven(0, j, k, f, e, g, |line|))
    ensures ParseWithRegex(line, regex) == Some(ParseResult(0, j > 0, line[j..k], line[f..e], line[g..]))
  {
    hide Exec;
    hide Nth;
    NthOfSeven(0, j, k, f, e, g, |line|);
    assert line[g..|line|] == line[g..];
  }

  /** The parser for unquoted parameters, resolved. */
  lemma ParsePlain(s: string, key: string)
    requires KeyLike(key)
    ensures ParseWithRegex(s, KeyToRegex(key)) ==
            match ValueStart(s, key)
            case None => None
            case Some(f) =>
              match FirstTail(s, f + 1, f + RunLength(NonSpace, s, f))
              case None => None
              case Some(e) => Some(ParseResult(0, KeyStart(s) > 0, key, s[f..e], s[e..]))
  {
    hide Exec;
    hide RunLength;
    hide TailAt;
    hide KeyStart;
    hide Nth;
    hide Seven;
    hide FirstTail;
    hide ValueStart;
    hide KeyToRegex;
    hide KeyLike;
    ExecPlain(s, key);
    if ValueStart(s, key).Some? {
      var f, j := ValueStart(s, key).value, KeyStart(s);
      KeyThere(s, key);
      var end := FirstTail(s, f + 1, f + RunLength(NonSpace, s, f));
      if end.Some? {
        ParsedFrom(s, KeyToRegex(key), j, j + |key|, f, end.value, end.value);
      }
    }
  }

  /** The parser for quoted parameters, resolved. */
  lemma ParseQuoted(s: string, key: string)
    requires KeyLike(key)
    ensures ParseWithRegex(s, KeyToRegexQuoted(key)) ==
            match ValueStart(s, key)
            case None => None
            case Some(f) =>
              if f < |s| && s[f] == '\'' then
                match FirstQuoteEnd(s, f + 2, f + 1 + RunLength(Dot, s, f + 1))
                case None => None
                case Some(e) => Some(ParseResult(0, KeyStart(s) > 0, key, s[f + 1..e], s[e + 1..]))
              else None
  {
    hide Exec;
    hide RunLength;
    hide TailAt;
    hide KeyStart;
    hide Nth;
    hide Seven;
    hide FirstQuoteEnd;
    hide ValueStart;
    hide KeyToRegexQuoted;
    hide KeyLike;
    ExecQuoted(s, key);
    if ValueStart(s, key).Some? {
      var f, j := ValueStart(s, key).value, KeyStart(s);
      KeyThere(s, key);
      if f < |s| && s[f] == '\'' {
        var end := FirstQuoteEnd(s, f + 2, f + 1 + RunLength(Dot, s, f + 1));
        if end.Some? {
          ParsedFrom(s, KeyToRegexQuoted(key), j, j + |key|, f + 1, end.value, end.value + 1);
        }
      }
    }
  }
}
