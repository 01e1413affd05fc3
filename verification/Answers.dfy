/** What a typed line means, and what each answer does to a run (tuner.go, checker.go). */
module Answers {
  import opened Text
  import opened Lines
  import opened Changes
  import opened TuneSettings
  import opened SharedPreloadLibs
  import opened PgTune
  import opened Tuning
  import opened Settling
  import opened Acceptance
  import opened Runs
  import opened Prompting
  import opened Theorems

  // ---------------------------------------------------------------- what a line says

  /** Tab, line feed, vertical tab, form feed, carriage return and space. */
  predicate Padding(s: string) {
    forall i :: 0 <= i < |s| ==>
      s[i] == '\t' || s[i] == '\n' || s[i] == '\U{000B}' || s[i] == '\U{000C}' || s[i] == '\r' || s[i] == ' '
  }

  /** The letters of `lower`, each of them small or capital. */
  predicate Spelled(word: string, lower: string) {
    |word| == |lower| &&
    forall i :: 0 <= i < |word| ==> word[i] == lower[i] || ('a' <= lower[i] <= 'z' && word[i] as int + 32 == lower[i] as int)
  }

  predicate SmallLetters(s: string) {
    s != "" && forall i :: 0 <= i < |s| ==> 'a' <= s[i] <= 'z'
  }

  /** The line is the word, with white space around it. */
  ghost predicate Says(line: string, lower: string) {
    exists a, word, b :: Padding(a) && Spelled(word, lower) && Padding(b) && line == a + (word + b)
  }

  lemma LowerIff(word: string, lower: string)
    requires SmallLetters(lower)
    ensures Lower(word) == lower <==> Spelled(word, lower)
  {
    if Lower(word) == lower {
      forall i | 0 <= i < |word|
        ensures word[i] == lower[i] || ('a' <= lower[i] <= 'z' && word[i] as int + 32 == lower[i] as int)
      {
        assert Lower(word)[i] == LowerChar(word[i]);
      }
    }
    if Spelled(word, lower) {
      forall i | 0 <= i < |word| ensures LowerChar(word[i]) == lower[i] {
      }
    }
  }

  lemma WordIsBare(word: string, lower: string)
    requires SmallLetters(lower) && Spelled(word, lower)
    ensures word != "" && !IsWhite(word[0]) && !IsWhite(word[|word| - 1])
  {
    assert word[0] == lower[0] || word[0] as int + 32 == lower[0] as int;
    var n := |word| - 1;
    assert word[n] == lower[n] || word[n] as int + 32 == lower[n] as int;
  }

  lemma PaddingIsWhite(s: string)
    ensures Padding(s) <==> forall i :: 0 <= i < |s| ==> IsWhite(s[i])
  {
  }

  lemma {:induction false} LeftPart(s: string) returns (a: string)
    ensures Padding(a) && s == a + TrimLeft(s, IsWhite)
    decreases |s|
  {
    a := "";
    if s != "" && IsWhite(s[0]) {
      var more := LeftPart(s[1..]);
      a := [s[0]] + more;
      assert s == [s[0]] + s[1..];
    }
  }

  lemma {:induction false} RightPart(s: string) returns (b: string)
    ensures Padding(b) && s == TrimRight(s, IsWhite) + b
    decreases |s|
  {
    b := "";
    var n := |s| - 1;
    if s != "" && IsWhite(s[n]) {
      var more := RightPart(s[..n]);
      b := more + [s[n]];
      assert s == s[..n] + [s[n]];
    } else {
      assert s == s + "";
    }
  }

  lemma SaysIff(line: string, lower: string)
    requires SmallLetters(lower)
    ensures Lower(TrimSpace(line)) == lower <==> Says(line, lower)
  {
    hide Padding;
    hide Spelled;
    hide SmallLetters;
    hide IsWhite;
    hide Lower;
    if Lower(TrimSpace(line)) == lower {
      var a := LeftPart(line);
      var b := RightPart(TrimLeft(line, IsWhite));
      LowerIff(TrimSpace(line), lower);
      assert line == a + (TrimSpace(line) + b);
    }
    forall a, word, b | Padding(a) && Spelled(word, lower) && Padding(b) && line == a + (word + b)
      ensures Lower(TrimSpace(line)) == lower
    {
      WordIsBare(word, lower);
      PaddingIsWhite(a);
      PaddingIsWhite(b);
      assert (word + b)[0] == word[0];
      TrimsBefore(a, word + b);
      TrimsAfter(word, b);
      LowerIff(word, lower);
    }
  }

  lemma WordsAreSmall()
    ensures SmallLetters("y") && SmallLetters("yes") && SmallLetters("n") && SmallLetters("no")
    ensures SmallLetters("q") && SmallLetters("quit") && SmallLetters("s") && SmallLetters("skip")
  {
  }

  /** Which lines answer a question, and how: words in any case, with any white space around them. */
  lemma AnswerIff(line: string, c: Checker)
    ensures Response(c, line) == Some(Yes) <==> Says(line, "y") || Says(line, "yes")
    ensures Response(c, line) == Some(No) <==>
            Says(line, "n") || Says(line, "no") || (c == SkipQuit && (Says(line, "q") || Says(line, "quit")))
    ensures Response(c, line) == Some(Skip) <==> c == SkipQuit && (Says(line, "s") || Says(line, "skip"))
    ensures Response(c, line) != Some(NoInput)
  {
    hide Says;
    hide SmallLetters;
    hide TrimSpace;
    WordsAreSmall();
    SaysIff(line, "y");
    SaysIff(line, "yes");
    SaysIff(line, "n");
    SaysIff(line, "no");
    SaysIff(line, "q");
    SaysIff(line, "quit");
    SaysIff(line, "s");
    SaysIff(line, "skip");
    hide Lower;
  }

  lemma Said(a: string, word: string, b: string, lower: string)
    requires Padding(a) && Spelled(word, lower) && Padding(b)
    ensures Says(a + (word + b), lower)
  {
    hide Padding;
    hide Spelled;
  }

  /** What is usually typed. */
  lemma UsualYes(c: Checker)
    ensures Response(c, "y\n") == Some(Yes) && Response(c, " YES\r\n") == Some(Yes)
  {
    Said("", "y", "\n", "y");
    Said(" ", "YES", "\r\n", "yes");
    assert "y\n" == "" + ("y" + "\n") && " YES\r\n" == " " + ("YES" + "\r\n");
    hide Says;
    AnswerIff("y\n", c);
    AnswerIff(" YES\r\n", c);
    hide Response;
  }

  lemma UsualNo(c: Checker)
    ensures Response(c, "n\n") == Some(No) && Response(SkipQuit, "s\n") == Some(Skip) && Response(SkipQuit, "Quit\n") == Some(No)
  {
    Said("", "n", "\n", "n");
    Said("", "s", "\n", "s");
    Said("", "Quit", "\n", "quit");
    assert "n\n" == "" + ("n" + "\n") && "s\n" == "" + ("s" + "\n") && "Quit\n" == "" + ("Quit" + "\n");
    hide Says;
    AnswerIff("n\n", c);
    AnswerIff("s\n", SkipQuit);
    AnswerIff("Quit\n", SkipQuit);
    hide Response;
  }

  lemma NoAnswer(c: Checker)
    ensures Response(c, "\n") == None && Response(c, "maybe\n") == None
  {
    TrimsAfter("maybe", "\n");
    assert "maybe" + "\n" == "maybe\n";
    assert Lower("maybe")[0] == 'm';
    assert TrimLeft("\n", IsWhite) == "";
  }

  // ---------------------------------------------------------------- the question of quiet mode

  /** In quiet mode the groups ask nothing, with --yes or without. */
  lemma {:induction false} QuietGroups(groups: seq<SettingsGroup>, tune: map<string, ParseResult>, env: Env, f: Flags, s: Session)
    requires AllSafe(groups) && InRange(tune, s.lines) && f.quiet
    ensures TunablesStep(groups, tune, env, f, s) == TunablesStep(groups, tune, env, Flags(true, true), s)
    ensures TunablesStep(groups, tune, env, f, s).State().input == s.input
    decreases groups
  {
    hide Safe;
    hide SomeFail;
    hide SomeShown;
    hide Rewritten;
    hide SetKeys;
    if |groups| > 0 {
      if !IsAvailable(groups[0].recommender) {
        QuietGroups(groups[1..], tune, env, f, s);
      } else {
        var r := GroupStep(groups[0], tune, env, f, s);
        if r.Go? {
          QuietGroups(groups[1..], tune, env, f, r.s);
        }
      }
    }
  }

  /** What a run has made of the lines before it stamps and writes them. */
  ghost function Tuned(lines: seq<string>, c: SystemConfig, p: Profile, env: Env, f: Flags, input: string): seq<string>
    requires AllSafe(Groups(c, p, env.linux))
  {
    TuneStep(lines, c, p, env, f, input).State().lines
  }

  /** The end of a run that was asked something, by the answer. */
  function Answered(a: Answer, otherwise: Outcome): Outcome {
    match a
    case Yes => otherwise
    case NoInput => Stopped(InputEnded)
    case _ => Stopped(Declined)
  }

  /**
    A quiet run without --yes is the one with --yes if that stops or changes nothing; otherwise one
    question is asked, and only a yes lets it write.
   */
  lemma QuietAnswer(lines: seq<string>, c: SystemConfig, p: Profile, env: Env, input: string)
    requires AllSafe(Groups(c, p, env.linux))
    ensures var quiet, sure := Flags(true, false), Flags(true, true);
            var all := Run(lines, c, p, env, sure, input);
            Run(lines, c, p, env, quiet, input) ==
            if all.Stopped? || Tuned(lines, c, p, env, sure, input) == lines then all
            else Answered(AskInput(input, YesNo).0, all)
  {
    hide AllSafe;
    hide Groups;
    hide Finish;
    hide FindShared;
    hide SetShared;
    hide TuneIndex;
    hide TunablesStep;
    hide AskInput;
    hide Changed;
    var quiet, sure := Flags(true, false), Flags(true, true);
    IndexInRange(lines);
    var based := SetShared(lines, FindShared(lines));
    QuietGroups(Groups(c, p, env.linux), TuneIndex(lines), env, quiet, Session(based, input, if based == lines then 0 else 1));
    QuietTellsTheTruth(lines, c, p, env, sure, input);
    hide InRange;
  }

  // ---------------------------------------------------------------- the questions of an interactive run

  const ASKING := Flags(false, false)

  /** Refusing the shared-library line, or saying nothing, stops a run that needs it. */
  lemma SharedLineAnswer(lines: seq<string>, c: SystemConfig, p: Profile, env: Env, input: string)
    requires AllSafe(Groups(c, p, env.linux)) && Based(lines) != lines && AskInput(input, YesNo).0 != Yes
    ensures Run(lines, c, p, env, ASKING, input) == Stopped(if AskInput(input, YesNo).0 == NoInput then InputEnded else Declined)
  {
    hide AllSafe;
    hide Groups;
    hide FindShared;
    hide SetShared;
    hide TuneIndex;
    hide InRange;
    hide AskInput;
    IndexInRange(lines);
  }

  /** The shared-library line is in order, or its question is answered with yes; what is left of the input. */
  ghost predicate PastSharedLine(lines: seq<string>, input: string, rest: string) {
    if Based(lines) == lines then rest == input else AskInput(input, YesNo) == (Yes, rest)
  }

  /** Refusing to tune is no error: the run writes the lines as the shared-library phase left them, stamped. */
  lemma TuneAnswer(lines: seq<string>, c: SystemConfig, p: Profile, env: Env, input: string, rest: string)
    requires AllSafe(Groups(c, p, env.linux)) && PastSharedLine(lines, input, rest)
    ensures AskInput(rest, YesNo).0 == No ==> Run(lines, c, p, env, ASKING, input) == Written(Finish(Based(lines), env.clock))
    ensures AskInput(rest, YesNo).0 == NoInput ==> Run(lines, c, p, env, ASKING, input) == Stopped(InputEnded)
  {
    hide AllSafe;
    hide Groups;
    hide Finish;
    hide FindShared;
    hide SetShared;
    hide TuneIndex;
    hide TunablesStep;
    hide AskInput;
    SharedTouches(lines);
    hide SameAt;
    hide Changed;
    hide PLAIN_SHARED_LINE;
    IndexInRange(lines);
  }

  /** What each answer does to a group that has something to show. */
  lemma GroupAnswer(g: SettingsGroup, tune: map<string, ParseResult>, env: Env, s: Session)
    requires Safe(g.recommender) && InRange(tune, s.lines) && !SomeFail(g, tune, env.numeric) && SomeShown(g, tune, env.numeric)
    ensures var r, (a, rest) := GroupStep(g, tune, env, ASKING, s), AskInput(s.input, SkipQuit);
            match a
            case Yes => r == Go(s.(lines := SetKeys(s.lines, g, Rewritten(g, g.keys, tune, env.numeric), tune), input := rest))
            case Skip => r == Go(s.(input := rest))
            case No => r == Halt(Declined, s.(input := rest))
            case NoInput => r == Halt(InputEnded, s.(input := rest))
  {
    hide SomeFail;
    hide SomeShown;
    hide Rewritten;
    hide SetKeys;
    hide AskInput;
  }

  /** The next `n` questions about groups are answered with skip. */
  predicate SkipLines(input: string, n: nat)
    decreases n
  {
    n == 0 || (AskInput(input, SkipQuit).0 == Skip && SkipLines(AskInput(input, SkipQuit).1, n - 1))
  }

  lemma {:induction false} OneSkipLess(input: string, n: nat)
    requires SkipLines(input, n + 1)
    ensures SkipLines(input, n)
    decreases n
  {
    hide AskInput;
    if n > 0 {
      OneSkipLess(AskInput(input, SkipQuit).1, n - 1);
    }
  }

  lemma {:induction false} SkippedGroups(groups: seq<SettingsGroup>, tune: map<string, ParseResult>, env: Env, s: Session)
    requires AllSafe(groups) && InRange(tune, s.lines) && SkipLines(s.input, |groups|) && NoneFail(groups, tune, env.numeric)
    ensures TunablesStep(groups, tune, env, ASKING, s).Go? && TunablesStep(groups, tune, env, ASKING, s).s.lines == s.lines
    decreases groups
  {
    hide Safe;
    hide SomeFail;
    hide SomeShown;
    hide Rewritten;
    hide SetKeys;
    hide AskInput;
    if |groups| > 0 {
      NoneFailSplit(groups, tune, env.numeric);
      hide NoneFail;
      OneSkipLess(s.input, |groups| - 1);
      if !IsAvailable(groups[0].recommender) {
        SkippedGroups(groups[1..], tune, env, s);
      } else {
        SkippedGroups(groups[1..], tune, env, GroupStep(groups[0], tune, env, ASKING, s).s);
      }
    }
  }

  /** Skipping every group completes the run, with no setting written. */
  lemma SkippingIsNoError(lines: seq<string>, c: SystemConfig, p: Profile, env: Env, input: string, rest: string)
    requires AllSafe(Groups(c, p, env.linux)) && PastSharedLine(lines, input, rest)
    requires NoneFail(Groups(c, p, env.linux), TuneIndex(lines), env.numeric)
    requires AskInput(rest, YesNo).0 == Yes && SkipLines(AskInput(rest, YesNo).1, |TUNABLES|)
    ensures Run(lines, c, p, env, ASKING, input) == Written(Finish(Based(lines), env.clock))
  {
    hide AllSafe;
    hide NoneFail;
    hide Finish;
    hide FindShared;
    hide SetShared;
    hide TuneIndex;
    hide TunablesStep;
    hide AskInput;
    hide SkipLines;
    hide GetSettingsGroup;
    SharedTouches(lines);
    hide SameAt;
    hide Changed;
    hide PLAIN_SHARED_LINE;
    IndexInRange(lines);
    var groups := Groups(c, p, env.linux);
    assert |groups| == |TUNABLES|;
    SkippedGroups(groups, TuneIndex(lines), env, Session(Based(lines), AskInput(rest, YesNo).1, 0));
  }

  lemma {:induction false} QuitGroups(groups: seq<SettingsGroup>, tune: map<string, ParseResult>, env: Env, s: Session)
    requires AllSafe(groups) && InRange(tune, s.lines) && NoneFail(groups, tune, env.numeric)
    requires AskInput(s.input, SkipQuit).0 in {No, NoInput}
    ensures var r, a := TunablesStep(groups, tune, env, ASKING, s), AskInput(s.input, SkipQuit).0;
            r.State().lines == s.lines &&
            if exists i :: 0 <= i < |groups| && IsAvailable(groups[i].recommender) && SomeShown(groups[i], tune, env.numeric)
            then r.Halt? && r.why == if a == NoInput then InputEnded else Declined
            else r.Go?
    decreases groups
  {
    hide Safe;
    hide SomeFail;
    hide SomeShown;
    hide Rewritten;
    hide SetKeys;
    hide AskInput;
    if |groups| > 0 {
      NoneFailSplit(groups, tune, env.numeric);
      hide NoneFail;
      var rest := groups[1..];
      assert forall i :: 0 <= i < |rest| ==> rest[i] == groups[i + 1];
      if !IsAvailable(groups[0].recommender) || !SomeShown(groups[0], tune, env.numeric) {
        QuitGroups(rest, tune, env, s);
        assert forall i :: 0 < i < |groups| ==> groups[i] == rest[i - 1];
      }
    }
  }

  /** Quitting at the first group, or saying nothing, stops the run before anything is written. */
  lemma QuittingStops(lines: seq<string>, c: SystemConfig, p: Profile, env: Env, input: string, rest: string, i: nat)
    requires AllSafe(Groups(c, p, env.linux)) && PastSharedLine(lines, input, rest)
    requires NoneFail(Groups(c, p, env.linux), TuneIndex(lines), env.numeric)
    requires i < |Groups(c, p, env.linux)|
    requires var g := Groups(c, p, env.linux)[i]; IsAvailable(g.recommender) && SomeShown(g, TuneIndex(lines), env.numeric)
    requires AskInput(rest, YesNo).0 == Yes && AskInput(AskInput(rest, YesNo).1, SkipQuit).0 in {No, NoInput}
    ensures Run(lines, c, p, env, ASKING, input) ==
            Stopped(if AskInput(AskInput(rest, YesNo).1, SkipQuit).0 == NoInput then InputEnded else Declined)
  {
    hide AllSafe;
    hide NoneFail;
    hide SomeShown;
    hide Finish;
    hide FindShared;
    hide SetShared;
    hide TuneIndex;
    hide TunablesStep;
    hide AskInput;
    hide Groups;
    SharedTouches(lines);
    hide SameAt;
    hide Changed;
    hide PLAIN_SHARED_LINE;
    IndexInRange(lines);
    QuitGroups(Groups(c, p, env.linux), TuneIndex(lines), env, Session(Based(lines), AskInput(rest, YesNo).1, 0));
  }
}
