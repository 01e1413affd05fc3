/** The questions (tuner.go, checker.go): which answer a finite input gives, and what refusing protects. */
module Prompting {
  import opened Text
  import opened PgTune
  import opened Tuning
  import opened Acceptance
  import opened Settling
  import opened TuneSettings

  /** A line of input as the reader returns it, with its line feed. */
  predicate Typed(line: string) {
    |line| > 0 && line[|line| - 1] == '\n' && '\n' !in line[..|line| - 1]
  }

  predicate AllTyped(lines: seq<string>) {
    forall i :: 0 <= i < |lines| ==> Typed(lines[i])
  }

  /** The input: complete lines, and then text without a line feed. */
  function Joined(lines: seq<string>, tail: string): string {
    if |lines| == 0 then tail else lines[0] + Joined(lines[1..], tail)
  }

  /** The first line that answers the question. */
  function FirstDecisive(lines: seq<string>, c: Checker): (r: Option<nat>)
    ensures r.Some? ==> r.value < |lines| && Response(c, lines[r.value]).Some? && forall j :: 0 <= j < r.value ==> Response(c, lines[j]).None?
    ensures r.None? ==> forall j :: 0 <= j < |lines| ==> Response(c, lines[j]).None?
  {
    if |lines| == 0 then None
    else if Response(c, lines[0]).Some? then Some(0)
    else
      match FirstDecisive(lines[1..], c)
      case None => None
      case Some(i) => assert forall j :: 1 <= j <= i + 1 ==> lines[j] == lines[1..][j - 1]; Some(i + 1)
  }

  lemma FirstFeed(line: string, rest: string)
    requires Typed(line)
    ensures IndexFrom(line + rest, "\n", 0) == Some(|line| - 1)
    ensures (line + rest)[..|line|] == line && (line + rest)[|line|..] == rest
  {
    var s := line + rest;
    var i := |line| - 1;
    assert forall j :: 0 <= j < i ==> s[j] == line[..i][j];
    OccursSingle(s, '\n', i);
    forall j | 0 <= j < i ensures !OccursAt(s, "\n", j) {
      OccursSingle(s, '\n', j);
    }
  }

  lemma NoFeed(tail: string)
    requires '\n' !in tail
    ensures IndexFrom(tail, "\n", 0) == None
  {
    match IndexFrom(tail, "\n", 0)
    case None =>
    case Some(i) => OccursSingle(tail, '\n', i);
  }

  /** Every input is complete lines and a tail, in one way. */
  lemma {:induction false} InputSplits(input: string) returns (lines: seq<string>, tail: string)
    ensures AllTyped(lines) && '\n' !in tail && input == Joined(lines, tail)
    decreases |input|
  {
    match IndexFrom(input, "\n", 0)
    case None =>
      lines, tail := [], input;
      forall j | 0 <= j < |input| ensures input[j] != '\n' {
        OccursSingle(input, '\n', j);
      }
    case Some(i) =>
      lines, tail := InputSplits(input[i + 1..]);
      var line := input[..i + 1];
      OccursSingle(input, '\n', i);
      var content := line[..i];
      forall j | 0 <= j < |content| ensures content[j] != '\n' {
        OccursSingle(input, '\n', j);
      }
      assert line[..|line| - 1] == content;
      assert input == line + input[i + 1..];
      lines := [line] + lines;
      assert lines[1..] == lines[1..];
  }

  /** The prompt loop gives the verdict of the first decisive line and consumes nothing after it, or reports the end of the input. */
  lemma {:induction false} PromptAnswers(lines: seq<string>, tail: string, c: Checker)
    requires AllTyped(lines) && '\n' !in tail
    ensures AskInput(Joined(lines, tail), c) ==
            match FirstDecisive(lines, c)
            case None => (NoInput, "")
            case Some(i) => (Response(c, lines[i]).value, Joined(lines[i + 1..], tail))
    decreases |lines|
  {
    hide Response;
    if |lines| == 0 {
      NoFeed(tail);
    } else {
      var rest := Joined(lines[1..], tail);
      FirstFeed(lines[0], rest);
      if Response(c, lines[0]).None? {
        PromptAnswers(lines[1..], tail, c);
        match FirstDecisive(lines[1..], c)
        case None =>
        case Some(i) => assert lines[1..][i + 1..] == lines[i + 2..];
      }
    }
  }

  /** Both checkers accept the same words; the skip checker refuses more, and only it can skip. */
  lemma Words(r: string)
    ensures Check(YesNo, r) == Some(Yes) <==> r in ["y", "yes"]
    ensures Check(SkipQuit, r) == Some(Yes) <==> Check(YesNo, r) == Some(Yes)
    ensures Check(YesNo, r) == Some(No) <==> r in ["n", "no"]
    ensures Check(SkipQuit, r) == Some(No) <==> Check(YesNo, r) == Some(No) || r in ["q", "quit"]
    ensures Check(YesNo, r) != Some(Skip) && (Check(SkipQuit, r) == Some(Skip) <==> r in ["s", "skip"])
    ensures forall c :: Check(c, r) != Some(NoInput)
  {
  }

  lemma {:induction false} TrimsBefore(before: string, rest: string)
    requires (forall i :: 0 <= i < |before| ==> IsWhite(before[i])) && |rest| > 0 && !IsWhite(rest[0])
    ensures TrimLeft(before + rest, IsWhite) == rest
    decreases |before|
  {
    if |before| > 0 {
      assert (before + rest)[1..] == before[1..] + rest;
      TrimsBefore(before[1..], rest);
    } else {
      assert before + rest == rest;
    }
  }

  lemma {:induction false} TrimsAfter(rest: string, after: string)
    requires (forall i :: 0 <= i < |after| ==> IsWhite(after[i])) && |rest| > 0 && !IsWhite(rest[|rest| - 1])
    ensures TrimRight(rest + after, IsWhite) == rest
    decreases |after|
  {
    var n := |after| - 1;
    if |after| > 0 {
      assert (rest + after)[..|rest| + n] == rest + after[..n];
      TrimsAfter(rest, after[..n]);
    } else {
      assert rest + after == rest;
    }
  }

  // ---------------------------------------------------------------- refusing

  /**
    Interactively, a group's lines change only when the first decisive line accepts; skipping,
    quitting, a failed check and the end of the input all leave every line as it was.
   */
  lemma OnlyAcceptanceWrites(g: SettingsGroup, tune: map<string, ParseResult>, env: Env, s: Session,
                                                lines: seq<string>, tail: string)
    requires Safe(g.recommender) && InRange(tune, s.lines)
    requires AllTyped(lines) && '\n' !in tail && s.input == Joined(lines, tail)
    ensures var r := GroupStep(g, tune, env, Flags(false, false), s);
            r.State().lines != s.lines ==>
              FirstDecisive(lines, SkipQuit).Some? && Response(SkipQuit, lines[FirstDecisive(lines, SkipQuit).value]) == Some(Yes)
  {
    hide Response;
    hide SomeFail;
    hide SomeShown;
    hide Rewritten;
    hide SetKeys;
    PromptAnswers(lines, tail, SkipQuit);
  }

  /** No line of the input says yes. */
  predicate NoYes(input: string)
    decreases |input|
  {
    match IndexFrom(input, "\n", 0)
    case None => true
    case Some(i) =>
      Response(YesNo, input[..i + 1]) != Some(Yes) && Response(SkipQuit, input[..i + 1]) != Some(Yes) && NoYes(input[i + 1..])
  }

  lemma {:induction false} NoYesAnswer(input: string, c: Checker)
    requires NoYes(input)
    ensures AskInput(input, c).0 != Yes && NoYes(AskInput(input, c).1)
    decreases |input|
  {
    hide Response;
    match IndexFrom(input, "\n", 0)
    case None => assert IndexFrom("", "\n", 0).None?;
    case Some(i) =>
      if Response(c, input[..i + 1]).None? {
        NoYesAnswer(input[i + 1..], c);
      }
  }

  lemma {:induction false} NoYesGroups(groups: seq<SettingsGroup>, tune: map<string, ParseResult>, env: Env, s: Session)
    requires AllSafe(groups) && InRange(tune, s.lines) && NoYes(s.input)
    ensures TunablesStep(groups, tune, env, Flags(false, false), s).State().lines == s.lines
    decreases groups
  {
    hide Safe;
    hide NoYes;
    hide SomeFail;
    hide SomeShown;
    hide Rewritten;
    hide SetKeys;
    hide AskInput;
    if |groups| > 0 {
      NoYesAnswer(s.input, SkipQuit);
      if !IsAvailable(groups[0].recommender) {
        NoYesGroups(groups[1..], tune, env, s);
      } else {
        var r := GroupStep(groups[0], tune, env, Flags(false, false), s);
        if r.Go? {
          NoYesGroups(groups[1..], tune, env, r.s);
        }
      }
    }
  }

  /** A user who never says yes gets nothing tuned: if anything is written, it is the old lines, stamped. */
  lemma NoYesNothingTuned(lines: seq<string>, c: SystemConfig, p: Profile, env: Env, input: string)
    requires AllSafe(Groups(c, p, env.linux)) && NoYes(input)
    ensures match Run(lines, c, p, env, Flags(false, false), input)
            case Written(out) => out == Finish(lines, env.clock) && SetShared(lines, FindShared(lines)) == lines
            case Stopped(_) => true
  {
    hide AllSafe;
    hide Groups;
    hide NoYes;
    hide Finish;
    hide FindShared;
    hide SetShared;
    hide TuneIndex;
    hide InRange;
    hide TunablesStep;
    hide AskInput;
    IndexInRange(lines);
    NoYesAnswer(input, YesNo);
  }

  // ---------------------------------------------------------------- accepting

  /** A line that says yes to either kind of question, or is no answer to it. */
  predicate Willing(line: string) {
    Response(YesNo, line) in {None, Some(Yes)} && Response(SkipQuit, line) in {None, Some(Yes)}
  }

  /** Every line is willing until `left` characters are left to read. */
  predicate WillingUntil(input: string, left: nat)
    decreases |input|
  {
    |input| <= left ||
    match IndexFrom(input, "\n", 0)
    case None => true
    case Some(i) => Willing(input[..i + 1]) && WillingUntil(input[i + 1..], left)
  }

  lemma {:induction false} WillingAnswer(input: string, left: nat, c: Checker)
    requires WillingUntil(input, left) && left <= |AskInput(input, c).1|
    ensures AskInput(input, c).0 in {Yes, NoInput} && WillingUntil(AskInput(input, c).1, left)
    decreases |input|
  {
    hide Response;
    match IndexFrom(input, "\n", 0)
    case None => assert IndexFrom("", "\n", 0).None?;
    case Some(i) =>
      if Response(c, input[..i + 1]).None? {
        WillingAnswer(input[i + 1..], left, c);
      }
  }

  lemma {:induction false} InputShrinks(groups: seq<SettingsGroup>, tune: map<string, ParseResult>, env: Env, f: Flags, s: Session)
    requires AllSafe(groups) && InRange(tune, s.lines)
    ensures |TunablesStep(groups, tune, env, f, s).State().input| <= |s.input|
    decreases groups
  {
    hide Safe;
    hide SomeFail;
    hide SomeShown;
    hide Rewritten;
    hide SetKeys;
    if |groups| > 0 {
      if !IsAvailable(groups[0].recommender) {
        InputShrinks(groups[1..], tune, env, f, s);
      } else {
        var r := GroupStep(groups[0], tune, env, f, s);
        if r.Go? {
          InputShrinks(groups[1..], tune, env, f, r.s);
        }
      }
    }
  }

  /** Without a stop, and without an unwilling line read, every available group passes. */
  lemma {:induction false} WillingGroups(groups: seq<SettingsGroup>, tune: map<string, ParseResult>, env: Env, f: Flags, s: Session, left: nat)
    requires AllSafe(groups) && InRange(tune, s.lines) && TunablesStep(groups, tune, env, f, s).Go?
    requires f.quiet || f.yesAlways || (WillingUntil(s.input, left) && left <= |TunablesStep(groups, tune, env, f, s).s.input|)
    ensures forall g :: g in groups && IsAvailable(g.recommender) ==>
              Passed(g, tune, env.numeric, AcceptedGroups(groups, tune, env, f, s.input))
    decreases groups
  {
    hide Safe;
    hide SomeFail;
    hide SomeShown;
    hide Rewritten;
    hide SetKeys;
    hide WillingUntil;
    if |groups| > 0 {
      var g, rest := groups[0], groups[1..];
      assert groups == [g] + rest;
      if !IsAvailable(g.recommender) {
        WillingGroups(rest, tune, env, f, s, left);
      } else {
        AcceptedSplit(groups, tune, env, f, s);
        var r := GroupStep(g, tune, env, f, s);
        InputShrinks(rest, tune, env, f, r.s);
        if WillingUntil(s.input, left) && left <= |AskInput(s.input, SkipQuit).1| {
          WillingAnswer(s.input, left, SkipQuit);
        }
        hide AskInput;
        WillingGroups(rest, tune, env, f, r.s, left);
        hide AcceptedGroups;
        hide TunablesStep;
      }
    }
  }

  /** The input has at least `n` willing lines that say yes before any other answer. */
  predicate YesLines(input: string, n: nat)
    decreases |input|
  {
    n == 0 ||
    match IndexFrom(input, "\n", 0)
    case None => false
    case Some(i) =>
      var line, rest := input[..i + 1], input[i + 1..];
      if Response(YesNo, line).None? && Response(SkipQuit, line).None? then YesLines(rest, n)
      else Response(YesNo, line) == Some(Yes) && Response(SkipQuit, line) == Some(Yes) && YesLines(rest, n - 1)
  }

  /** The next `n` questions will be accepted. */
  predicate Ready(f: Flags, input: string, n: nat) {
    f.yesAlways || YesLines(input, n)
  }

  lemma {:induction false} FewerYesLines(input: string, n: nat)
    requires YesLines(input, n + 1)
    ensures YesLines(input, n)
    decreases |input|
  {
    hide Response;
    if n > 0 {
      var i := IndexFrom(input, "\n", 0).value;
      var line, rest := input[..i + 1], input[i + 1..];
      if Response(YesNo, line).None? && Response(SkipQuit, line).None? {
        FewerYesLines(rest, n);
      } else {
        FewerYesLines(rest, n - 1);
      }
    }
  }

  lemma ReadyForOneLess(f: Flags, input: string, n: nat)
    requires Ready(f, input, n + 1)
    ensures Ready(f, input, n)
  {
    hide YesLines;
    if !f.yesAlways {
      FewerYesLines(input, n);
    }
  }

  lemma {:induction false} YesLinesAnswer(input: string, n: nat, c: Checker)
    requires YesLines(input, n + 1)
    ensures AskInput(input, c).0 == Yes && YesLines(AskInput(input, c).1, n)
    decreases |input|
  {
    hide Response;
    var i := IndexFrom(input, "\n", 0).value;
    var line, rest := input[..i + 1], input[i + 1..];
    if Response(YesNo, line).None? && Response(SkipQuit, line).None? {
      YesLinesAnswer(rest, n, c);
    }
  }

  lemma ReadyAnswer(f: Flags, input: string, n: nat, c: Checker)
    requires Ready(f, input, n + 1)
    ensures Ask(f, input, c).0 == Yes && Ready(f, Ask(f, input, c).1, n)
  {
    hide YesLines;
    hide AskInput;
    if !f.yesAlways {
      YesLinesAnswer(input, n, c);
    }
  }

  /** No setting of an available group makes the check stop with an error. */
  ghost predicate NoneFail(groups: seq<SettingsGroup>, tune: map<string, ParseResult>, numeric: string -> Option<Float>)
    requires AllSafe(groups)
  {
    forall i :: 0 <= i < |groups| && IsAvailable(groups[i].recommender) ==> !SomeFail(groups[i], tune, numeric)
  }

  lemma NoneFailSplit(groups: seq<SettingsGroup>, tune: map<string, ParseResult>, numeric: string -> Option<Float>)
    requires |groups| > 0 && AllSafe(groups)
    ensures AllSafe(groups[1..])
    ensures NoneFail(groups, tune, numeric) <==>
            (IsAvailable(groups[0].recommender) ==> !SomeFail(groups[0], tune, numeric)) && NoneFail(groups[1..], tune, numeric)
  {
    hide SomeFail;
    hide Safe;
    var rest := groups[1..];
    assert forall i :: 0 <= i < |rest| ==> rest[i] == groups[i + 1];
    assert forall i :: 0 < i < |groups| ==> groups[i] == rest[i - 1];
  }

  lemma {:induction false} ReadyGroups(groups: seq<SettingsGroup>, tune: map<string, ParseResult>, env: Env, f: Flags, s: Session, more: nat)
    requires AllSafe(groups) && InRange(tune, s.lines) && Ready(f, s.input, |groups| + more)
    ensures var r := TunablesStep(groups, tune, env, f, s);
            if r.Halt? then r.why == ParseProblem else Ready(f, r.s.input, more)
    ensures TunablesStep(groups, tune, env, f, s).Go? <==> NoneFail(groups, tune, env.numeric)
    decreases groups
  {
    hide Safe;
    hide Ready;
    hide SomeFail;
    hide SomeShown;
    hide Rewritten;
    hide SetKeys;
    hide Ask;
    if |groups| > 0 {
      NoneFailSplit(groups, tune, env.numeric);
      hide NoneFail;
      var n := |groups| - 1 + more;
      ReadyAnswer(f, s.input, n, SkipQuit);
      ReadyForOneLess(f, s.input, n);
      if !IsAvailable(groups[0].recommender) {
        ReadyGroups(groups[1..], tune, env, f, s, more);
      } else {
        var r := GroupStep(groups[0], tune, env, f, s);
        if r.Go? {
          ReadyGroups(groups[1..], tune, env, f, r.s, more);
        }
      }
    }
  }

  /** With enough yeses and without a stop, every available group passes. */
  lemma {:induction false} ReadyPasses(groups: seq<SettingsGroup>, tune: map<string, ParseResult>, env: Env, f: Flags, s: Session)
    requires AllSafe(groups) && InRange(tune, s.lines) && Ready(f, s.input, |groups|) && TunablesStep(groups, tune, env, f, s).Go?
    ensures forall g :: g in groups && IsAvailable(g.recommender) ==>
              Passed(g, tune, env.numeric, AcceptedGroups(groups, tune, env, f, s.input))
    decreases groups
  {
    hide Safe;
    hide Ready;
    hide SomeFail;
    hide SomeShown;
    hide Rewritten;
    hide SetKeys;
    hide Ask;
    if |groups| > 0 {
      var g, rest := groups[0], groups[1..];
      assert groups == [g] + rest;
      ReadyAnswer(f, s.input, |rest|, SkipQuit);
      ReadyForOneLess(f, s.input, |rest|);
      if !IsAvailable(g.recommender) {
        ReadyPasses(rest, tune, env, f, s);
      } else {
        AcceptedSplit(groups, tune, env, f, s);
        var r := GroupStep(g, tune, env, f, s);
        ReadyPasses(rest, tune, env, f, r.s);
        hide AcceptedGroups;
        hide TunablesStep;
      }
    }
  }

  /** Questions asked in one run, at most: the shared-library line, whether to tune, and one for each group. */
  const MOST_QUESTIONS := 2 + |TUNABLES|

  /** With that many yeses a run writes its lines exactly when no setting fails the check. */
  lemma ReadyRun(lines: seq<string>, c: SystemConfig, p: Profile, env: Env, f: Flags, input: string)
    requires AllSafe(Groups(c, p, env.linux)) && Ready(f, input, MOST_QUESTIONS)
    ensures match Run(lines, c, p, env, f, input)
            case Written(_) => NoneFail(Groups(c, p, env.linux), TuneIndex(lines), env.numeric)
            case Stopped(why) => why == ParseProblem && !NoneFail(Groups(c, p, env.linux), TuneIndex(lines), env.numeric)
  {
    hide AllSafe;
    hide NoneFail;
    hide Ready;
    hide Finish;
    hide FindShared;
    hide SetShared;
    hide TuneIndex;
    hide TunablesStep;
    hide Ask;
    hide GetSettingsGroup;
    var groups := Groups(c, p, env.linux);
    IndexInRange(lines);
    var n := |TUNABLES|;
    assert |groups| == n;
    ReadyAnswer(f, input, n + 1, YesNo);
    ReadyForOneLess(f, input, n + 1);
    var s := Session(lines, input, 0);
    if f.quiet {
      var based := SetShared(lines, FindShared(lines));
      var s1 := s.(lines := based, writes := if based == lines then 0 else 1);
      ReadyForOneLess(f, input, n);
      ReadyGroups(groups, TuneIndex(lines), env, f, s1, 1);
      var r := TunablesStep(groups, TuneIndex(lines), env, f, s1);
      if r.Go? {
        ReadyAnswer(f, r.s.input, 0, YesNo);
      }
    } else {
      var shared := SharedStep(FindShared(lines), f, s);
      ReadyAnswer(f, shared.s.input, n, YesNo);
      ReadyGroups(groups, TuneIndex(lines), env, f, shared.s.(input := Ask(f, shared.s.input, YesNo).1), 0);
    }
  }

  // ---------------------------------------------------------------- quiet and interactive

  /** The same lines, or the same reason to stop. */
  predicate SameStep(a: Step, b: Step) {
    a.Halt? == b.Halt? && a.State().lines == b.State().lines && (a.Halt? ==> a.why == b.why)
  }

  /** With --yes the groups do the same in both modes. */
  lemma {:induction false} SameGroups(groups: seq<SettingsGroup>, tune: map<string, ParseResult>, env: Env, f: Flags, g: Flags, s: Session, t: Session)
    requires AllSafe(groups) && InRange(tune, s.lines) && s.lines == t.lines && f.yesAlways && g.yesAlways
    ensures SameStep(TunablesStep(groups, tune, env, f, s), TunablesStep(groups, tune, env, g, t))
    decreases groups
  {
    hide Safe;
    hide SomeFail;
    hide SomeShown;
    hide Rewritten;
    hide SetKeys;
    if |groups| > 0 {
      if !IsAvailable(groups[0].recommender) {
        SameGroups(groups[1..], tune, env, f, g, s, t);
      } else {
        var a, b := GroupStep(groups[0], tune, env, f, s), GroupStep(groups[0], tune, env, g, t);
        if a.Go? {
          SameGroups(groups[1..], tune, env, f, g, a.s, b.s);
        }
      }
    }
  }

  /** With --yes, quiet and interactive runs have the same outcome on any lines, whatever the input. */
  lemma ModesAgree(lines: seq<string>, c: SystemConfig, p: Profile, env: Env, f: Flags, g: Flags, inputF: string, inputG: string)
    requires AllSafe(Groups(c, p, env.linux)) && f.yesAlways && g.yesAlways
    ensures Run(lines, c, p, env, f, inputF) == Run(lines, c, p, env, g, inputG)
  {
    SameAsTuned(lines, c, p, env, f, inputF);
    SameAsTuned(lines, c, p, env, g, inputG);
    hide TuneStep;
    hide AllSafe;
    hide Groups;
    hide TunablesStep;
    hide SetShared;
    hide FindShared;
    hide TuneIndex;
    hide Finish;
  }

  /** The run of either mode, with --yes: the groups in turn, on the lines with the shared-library line in order. */
  lemma SameAsTuned(lines: seq<string>, c: SystemConfig, p: Profile, env: Env, f: Flags, input: string)
    requires AllSafe(Groups(c, p, env.linux)) && f.yesAlways
    ensures InRange(TuneIndex(lines), SetShared(lines, FindShared(lines)))
    ensures SameStep(TuneStep(lines, c, p, env, f, input),
                     TunablesStep(Groups(c, p, env.linux), TuneIndex(lines), env, Flags(true, true), Session(SetShared(lines, FindShared(lines)), "", 0)))
  {
    hide AllSafe;
    hide Groups;
    hide TunablesStep;
    hide SetShared;
    hide FindShared;
    hide TuneIndex;
    hide AskInput;
    IndexInRange(lines);
    var groups, based := Groups(c, p, env.linux), SetShared(lines, FindShared(lines));
    var t := Session(based, "", 0);
    if f.quiet {
      var s := Session(based, input, if based == lines then 0 else 1);
      SameGroups(groups, TuneIndex(lines), env, f, Flags(true, true), s, t);
    } else {
      SameGroups(groups, TuneIndex(lines), env, f, Flags(true, true), Session(based, input, 0), t);
    }
  }
}
