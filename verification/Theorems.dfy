/** The theorems about whole runs. */
module Theorems {
  import opened Text
  import opened Lines
  import opened Changes
  import opened TuneSettings
  import opened LineGrammar
  import opened SharedPreloadLibs
  import opened PgTune
  import opened Tuning
  import opened Recommendations
  import opened StaleIndex
  import opened Acceptance
  import opened Settling
  import opened Finishing
  import opened Runs
  import opened Libraries
  import opened Prompting

  /** The lines after the shared-library phase. */
  function Based(lines: seq<string>): seq<string> {
    SetShared(lines, FindShared(lines))
  }

  predicate Selected(lines: seq<string>) {
    FindShared(lines).Some? ==> WellPlaced(lines[FindShared(lines).value.idx])
  }

  lemma SharedPhase(lines: seq<string>)
    requires Selected(lines)
    ensures var base := Based(lines); SharedInOrder(base) && Agree(lines, base) && (AllClean(lines) ==> AllClean(base))
  {
    hide FindShared;
    hide SharedInOrder;
    hide Agree;
    hide AllClean;
    hide WellPlaced;
    hide UpdateLine;
    match FindShared(lines)
    case None => SharedAppended(lines);
    case Some(_) => SharedReplaced(lines);
  }

  /** The groups a run rewrites. */
  ghost function Chosen(lines: seq<string>, c: SystemConfig, p: Profile, env: Env, f: Flags, input: string): (r: seq<SettingsGroup>)
    requires AllSafe(Groups(c, p, env.linux))
    ensures forall g :: g in r ==> g in Groups(c, p, env.linux) && IsAvailable(g.recommender)
  {
    var groups, tune := Groups(c, p, env.linux), TuneIndex(lines);
    if f.quiet then AcceptedGroups(groups, tune, env, f, input)
    else
      var shared := SharedStep(FindShared(lines), f, Session(lines, input, 0));
      if shared.Halt? then []
      else
        var (a, rest) := Ask(f, shared.s.input, YesNo);
        if a == Yes then AcceptedGroups(groups, tune, env, f, rest) else []
  }

  /** What a run writes for the parameters. */
  ghost function Writes(lines: seq<string>, c: SystemConfig, p: Profile, env: Env, f: Flags, input: string): map<string, string>
    requires AllSafe(Groups(c, p, env.linux))
  {
    ChosenAreSafe(lines, c, p, env, f, input);
    Settings(Chosen(lines, c, p, env, f, input), TuneIndex(lines), env.numeric)
  }

  lemma ChosenAreSafe(lines: seq<string>, c: SystemConfig, p: Profile, env: Env, f: Flags, input: string)
    requires AllSafe(Groups(c, p, env.linux))
    ensures AllPanicFree(Chosen(lines, c, p, env, f, input))
  {
    hide Safe;
    hide Groups;
    hide Chosen;
  }

  /** Exactly which parameters a run writes, and the values. */
  lemma WritesIff(lines: seq<string>, c: SystemConfig, p: Profile, env: Env, f: Flags, input: string)
    requires AllSafe(Groups(c, p, env.linux))
    ensures var w, chosen := Writes(lines, c, p, env, f, input), Chosen(lines, c, p, env, f, input);
            && (forall k :: k in w <==> exists g :: g in chosen && Proposed(g, TuneIndex(lines), env.numeric, k))
            && (forall g, k :: g in chosen && Proposed(g, TuneIndex(lines), env.numeric, k) ==> k in w && w[k] == Recommend(g.recommender, k))
  {
    hide Groups;
    hide Chosen;
    hide GoodGroups;
    hide TuneIndex;
    hide Settings;
    hide Proposed;
    GroupsAreGood(c, p, env.linux);
    ChosenAreSafe(lines, c, p, env, f, input);
    forall k
      ensures var w, chosen := Writes(lines, c, p, env, f, input), Chosen(lines, c, p, env, f, input);
              && (k in w <==> ProposedBy(chosen, TuneIndex(lines), env.numeric, k))
              && (forall g :: g in chosen && Proposed(g, TuneIndex(lines), env.numeric, k) ==> k in w && w[k] == Recommend(g.recommender, k))
    {
      SettingsIff(Groups(c, p, env.linux), Chosen(lines, c, p, env, f, input), lines, env.numeric, k);
    }
  }

  lemma NothingFresh(groups: seq<SettingsGroup>)
    ensures Fresh(KeysOf(groups), map[])
  {
    hide KeysOf;
  }

  /** All groups in turn, from the lines after the shared-library phase. */
  lemma SettingsPhase(lines: seq<string>, groups: seq<SettingsGroup>, env: Env, f: Flags, s: Session)
    requires AllSafe(groups) && GoodGroups(groups) && s.lines == Based(lines)
    ensures InRange(TuneIndex(lines), s.lines)
    ensures var tune := TuneIndex(lines);
            var accepted := AcceptedGroups(groups, tune, env, f, s.input);
            var r := TunablesStep(groups, tune, env, f, s);
            AllPanicFree(accepted) &&
            var w := Settings(accepted, tune, env.numeric);
            Kept(lines, s.lines, r.State().lines, w) && (f.quiet ==> r.State().writes == s.writes + |w|)
  {
    hide AllSafe;
    hide GoodGroups;
    hide AcceptedGroups;
    hide Kept;
    hide Changed;
    hide TunablesStep;
    hide TuneIndex;
    hide Fresh;
    hide FindShared;
    hide PLAIN_SHARED_LINE;
    IndexInRange(lines);
    SharedTouches(lines);
    SameAtLength(lines, s.lines);
    hide SameAt;
    KeptAtFirst(lines, s.lines);
    NothingFresh(groups);
    NothingFirst(lines, groups, env, f, s.input);
    TunablesKeep(lines, s.lines, map[], groups, env, f, s);
  }

  lemma SameAtLength(lines: seq<string>, base: seq<string>)
    requires SameAt(lines, base)
    ensures |lines| <= |base|
  {
  }

  lemma NothingFirst(lines: seq<string>, groups: seq<SettingsGroup>, env: Env, f: Flags, input: string)
    requires AllSafe(groups)
    ensures var accepted := AcceptedGroups(groups, TuneIndex(lines), env, f, input);
            AllPanicFree(accepted) && map[] + Settings(accepted, TuneIndex(lines), env.numeric) == Settings(accepted, TuneIndex(lines), env.numeric)
  {
    hide AcceptedGroups;
    hide Safe;
    hide TuneIndex;
    hide Settings;
    AcceptedAreSafe(groups, TuneIndex(lines), env, f, input);
  }

  lemma QuietKeeps(lines: seq<string>, c: SystemConfig, p: Profile, env: Env, f: Flags, input: string)
    requires AllSafe(Groups(c, p, env.linux)) && f.quiet
    ensures var r, w := TuneStep(lines, c, p, env, f, input).State(), Writes(lines, c, p, env, f, input);
            Kept(lines, Based(lines), r.lines, w) && r.writes == Changed(lines, Based(lines)) + |w|
  {
    hide AllSafe;
    hide GoodGroups;
    hide Kept;
    hide TunablesStep;
    hide AcceptedGroups;
    hide Settings;
    hide TuneIndex;
    hide InRange;
    hide Changed;
    hide FindShared;
    hide Groups;
    hide Ask;
    hide SetShared;
    hide SameAt;
    hide PLAIN_SHARED_LINE;
    IndexInRange(lines);
    GroupsAreGood(c, p, env.linux);
    SharedTouches(lines);
    var base := Based(lines);
    SettingsPhase(lines, Groups(c, p, env.linux), env, f, Session(base, input, if base == lines then 0 else 1));
  }

  lemma InteractiveKeeps(lines: seq<string>, c: SystemConfig, p: Profile, env: Env, f: Flags, input: string)
    returns (base: seq<string>)
    requires AllSafe(Groups(c, p, env.linux)) && !f.quiet
    ensures var r := TuneStep(lines, c, p, env, f, input);
            && (base == Based(lines) || (r.Halt? && base == lines))
            && Kept(lines, base, r.State().lines, Writes(lines, c, p, env, f, input))
  {
    hide AllSafe;
    hide GoodGroups;
    hide Kept;
    hide TunablesStep;
    hide AcceptedGroups;
    hide TuneIndex;
    hide InRange;
    hide FindShared;
    hide Groups;
    hide Ask;
    hide SetShared;
    hide SameAt;
    hide PLAIN_SHARED_LINE;
    IndexInRange(lines);
    GroupsAreGood(c, p, env.linux);
    SharedTouches(lines);
    SameAtLength(lines, Based(lines));
    base := Based(lines);
    KeptAtFirst(lines, base);
    KeptAtFirst(lines, lines);
    NoSettings(map[], TuneIndex(lines), env.numeric);
    hide Settings;
    var shared := SharedStep(FindShared(lines), f, Session(lines, input, 0));
    if shared.Halt? {
      base := lines;
    } else {
      var (a, rest) := Ask(f, shared.s.input, YesNo);
      if a == Yes {
        SettingsPhase(lines, Groups(c, p, env.linux), env, f, shared.s.(input := rest));
      }
    }
  }

  /**
    Every run on any lines, whatever the answers, up to the point of stamping and writing: exactly the
    settings of the chosen groups are written, and in quiet mode the writes are the changed lines.
   */
  lemma RunKeeps(lines: seq<string>, c: SystemConfig, p: Profile, env: Env, f: Flags, input: string)
    returns (base: seq<string>)
    requires AllSafe(Groups(c, p, env.linux))
    ensures var r := TuneStep(lines, c, p, env, f, input);
            && (base == Based(lines) || (r.Halt? && base == lines))
            && Kept(lines, base, r.State().lines, Writes(lines, c, p, env, f, input))
            && (f.quiet ==> base == Based(lines) && r.State().writes == Changed(lines, base) + |Writes(lines, c, p, env, f, input)|)
  {
    hide AllSafe;
    hide Groups;
    hide Kept;
    hide TuneStep;
    hide Writes;
    hide Changed;
    hide Based;
    if f.quiet {
      QuietKeeps(lines, c, p, env, f, input);
      base := Based(lines);
    } else {
      base := InteractiveKeeps(lines, c, p, env, f, input);
    }
  }

  // ---------------------------------------------------------------- the index

  /** The index never gives one line to two parameters, nor the shared-library line to any. */
  lemma IndexIsInjective(lines: seq<string>, k1: string, k2: string)
    requires k1 in ALL_KEYS && k2 in ALL_KEYS && FindKey(lines, k1).Some?
    ensures FindKey(lines, k2).Some? && FindKey(lines, k1).value.idx == FindKey(lines, k2).value.idx ==> k1 == k2
    ensures FindShared(lines).Some? ==> FindShared(lines).value.idx != FindKey(lines, k1).value.idx
  {
    hide FindKey;
    hide FindShared;
    hide ParseKey;
    hide ParseLine;
    hide KeyLike;
    NamesAreKeyLike();
    FindKeyFacts(lines, k1);
    FindKeyFacts(lines, k2);
    FindSharedFacts(lines);
    hide ALL_KEYS;
    if FindKey(lines, k2).Some? && FindKey(lines, k1).value.idx == FindKey(lines, k2).value.idx {
      MatchesOne(lines[FindKey(lines, k1).value.idx], k1, k2);
    }
  }

  // ---------------------------------------------------------------- recommendations in effect

  /** The end of a run does not change what the check says of a parameter. */
  lemma SameDecision(g: SettingsGroup, lines: seq<string>, env: Env, k: string)
    requires Safe(g.recommender) && k in ALL_KEYS && GoodClock(env.clock)
    ensures DecideIn(g, TuneIndex(Finish(lines, env.clock)), env.numeric, k) == DecideIn(g, TuneIndex(lines), env.numeric, k)
  {
    hide FindKey;
    hide Finish;
    hide Recommend;
    hide TuneIndex;
    hide Lookup;
    hide ParseFloat;
    hide CloseEnough;
    hide GoodClock;
    FinishKeepsKeys(lines, env.clock, k);
    LookupIndex(lines, k);
    LookupIndex(Finish(lines, env.clock), k);
  }

  /**
    After any completed run, scanning the written lines finds, for every recommended parameter of every
    group that passed, a last line that is active and holds the recommendation or a value within 5% of it.
   */
  lemma EffectiveValue(lines: seq<string>, c: SystemConfig, p: Profile, env: Env, f: Flags, input: string, out: seq<string>,
                                          g: SettingsGroup, k: string)
    requires AllSafe(Groups(c, p, env.linux)) && Selected(lines) && GoodClock(env.clock)
    requires Run(lines, c, p, env, f, input) == Written(out)
    requires g in Groups(c, p, env.linux) && IsAvailable(g.recommender) && k in g.keys && Recommend(g.recommender, k) != NO_RECOMMENDATION
    requires Passed(g, TuneIndex(lines), env.numeric, Chosen(lines, c, p, env, f, input))
    ensures FindKey(out, k).Some? &&
            InEffect(FindKey(out, k).value, Recommend(g.recommender, k), GetFloatParser(g.recommender), env.numeric, k)
  {
    hide GoodGroups;
    hide Groups;
    hide TuneStep;
    hide Recommend;
    hide FindKey;
    hide FindShared;
    hide Decide;
    hide TuneIndex;
    hide Lookup;
    hide InEffect;
    hide GoodClock;
    hide Passed;
    hide Settings;
    hide Chosen;
    hide AllPanicFree;
    hide Kept;
    hide Agree;
    hide SharedInOrder;
    hide Selected;
    hide AllClean;
    hide Finish;
    hide SetShared;
    hide ALL_KEYS;
    var groups, chosen := Groups(c, p, env.linux), Chosen(lines, c, p, env, f, input);
    var base := RunKeeps(lines, c, p, env, f, input);
    var done := TuneStep(lines, c, p, env, f, input).s.lines;
    SharedPhase(lines);
    GroupsAreGood(c, p, env.linux);
    GoodMember(groups, g);
    ChosenAreSafe(lines, c, p, env, f, input);
    PassedSettles(lines, base, done, groups, chosen, g, k, env.numeric);
    var i :| 0 <= i < |g.keys| && g.keys[i] == k;
    assert k in ALL_KEYS;
    SameDecision(g, done, env, k);
    LookupIndex(out, k);
    KeptIff(FindKey(out, k), Recommend(g.recommender, k), GetFloatParser(g.recommender), env.numeric, k);
  }

  /** A completed run in which every available group passed: none was refused that had something to show. */
  ghost predicate AcceptedRun(lines: seq<string>, c: SystemConfig, p: Profile, env: Env, f: Flags, input: string, out: seq<string>)
    requires AllSafe(Groups(c, p, env.linux))
  {
    Run(lines, c, p, env, f, input) == Written(out) &&
    forall g :: g in Groups(c, p, env.linux) && IsAvailable(g.recommender) ==>
      Passed(g, TuneIndex(lines), env.numeric, Chosen(lines, c, p, env, f, input))
  }

  lemma AcceptedSettles(lines: seq<string>, c: SystemConfig, p: Profile, env: Env, f: Flags, input: string, out: seq<string>)
    requires AllSafe(Groups(c, p, env.linux)) && Selected(lines) && GoodClock(env.clock)
    requires AcceptedRun(lines, c, p, env, f, input, out)
    ensures Settled(Groups(c, p, env.linux), out, env.numeric)
  {
    hide Selected;
    hide GoodGroups;
    hide Groups;
    hide Run;
    hide Recommend;
    hide FindKey;
    hide Decide;
    hide TuneIndex;
    hide Lookup;
    hide InEffect;
    hide GoodClock;
    hide Passed;
    hide Chosen;
    var groups := Groups(c, p, env.linux);
    GroupsAreGood(c, p, env.linux);
    forall g, i | g in groups && IsAvailable(g.recommender) && 0 <= i < |g.keys| && Recommend(g.recommender, g.keys[i]) != NO_RECOMMENDATION
      ensures DecideIn(g, TuneIndex(out), env.numeric, g.keys[i]) == Keep
    {
      var k := g.keys[i];
      assert k in g.keys;
      EffectiveValue(lines, c, p, env, f, input, out, g, k);
      GoodMember(groups, g);
      LookupIndex(out, k);
      KeptIff(FindKey(out, k), Recommend(g.recommender, k), GetFloatParser(g.recommender), env.numeric, k);
    }
  }

  /**
    A completed run is accepted if it was quiet or had --yes, or if every line it read was a yes or no
    answer at all; the lines it did not read do not matter.
   */
  lemma WillingRun(lines: seq<string>, c: SystemConfig, p: Profile, env: Env, f: Flags, input: string, out: seq<string>)
    requires AllSafe(Groups(c, p, env.linux)) && Run(lines, c, p, env, f, input) == Written(out)
    requires f.quiet || f.yesAlways || WillingUntil(input, |TuneStep(lines, c, p, env, f, input).State().input|)
    ensures AcceptedRun(lines, c, p, env, f, input, out)
  {
    hide AllSafe;
    hide Groups;
    hide Passed;
    hide FindShared;
    hide SetShared;
    hide TuneIndex;
    hide TunablesStep;
    hide AcceptedGroups;
    hide WillingUntil;
    hide Finish;
    hide AskInput;
    var groups, left := Groups(c, p, env.linux), |TuneStep(lines, c, p, env, f, input).State().input|;
    IndexInRange(lines);
    var s := Session(lines, input, 0);
    if f.quiet {
      var based := SetShared(lines, FindShared(lines));
      WillingGroups(groups, TuneIndex(lines), env, f, s.(lines := based, writes := if based == lines then 0 else 1), left);
    } else {
      var shared := SharedStep(FindShared(lines), f, s);
      var s' := shared.s.(input := Ask(f, shared.s.input, YesNo).1);
      InputShrinks(groups, TuneIndex(lines), env, f, s');
      if !f.yesAlways {
        if left <= |AskInput(input, YesNo).1| {
          WillingAnswer(input, left, YesNo);
        }
        WillingAnswer(shared.s.input, left, YesNo);
      }
      WillingGroups(groups, TuneIndex(lines), env, f, s', left);
    }
  }

  /** With enough yeses, a completed run is accepted, whatever else is in the input. */
  lemma ReadyRunIsAccepted(lines: seq<string>, c: SystemConfig, p: Profile, env: Env, f: Flags, input: string, out: seq<string>)
    requires AllSafe(Groups(c, p, env.linux)) && Run(lines, c, p, env, f, input) == Written(out)
    requires Ready(f, input, MOST_QUESTIONS)
    ensures AcceptedRun(lines, c, p, env, f, input, out)
  {
    hide AllSafe;
    hide Ready;
    hide Passed;
    hide Finish;
    hide FindShared;
    hide SetShared;
    hide TuneIndex;
    hide TunablesStep;
    hide AcceptedGroups;
    hide Ask;
    hide GetSettingsGroup;
    var groups := Groups(c, p, env.linux);
    IndexInRange(lines);
    var n := |TUNABLES|;
    assert |groups| == n;
    ReadyAnswer(f, input, n + 1, YesNo);
    ReadyForOneLess(f, input, n + 1);
    var s := Session(lines, input, 0);
    if f.quiet {
      var based := SetShared(lines, FindShared(lines));
      ReadyForOneLess(f, input, n);
      ReadyPasses(groups, TuneIndex(lines), env, f, s.(lines := based, writes := if based == lines then 0 else 1));
    } else {
      var shared := SharedStep(FindShared(lines), f, s);
      ReadyAnswer(f, shared.s.input, n, YesNo);
      ReadyPasses(groups, TuneIndex(lines), env, f, shared.s.(input := Ask(f, shared.s.input, YesNo).1));
    }
  }

  /**
    After any completed run, scanning the written lines selects an active shared-library line with the
    text of the extension's name in its list, and the list is the one selected before, extended if it
    did not have that text.
   */
  lemma SharedLineInOrder(lines: seq<string>, c: SystemConfig, p: Profile, env: Env, f: Flags, input: string, out: seq<string>)
    requires AllSafe(Groups(c, p, env.linux)) && Selected(lines) && GoodClock(env.clock)
    requires Run(lines, c, p, env, f, input) == Written(out)
    ensures FindShared(out).Some? && !FindShared(out).value.commented && FindShared(out).value.hasTimescale
    ensures FindShared(out).value.libs == match FindShared(lines)
                                          case None => EXT_NAME
                                          case Some(r) => WithExtension(r.libs)
  {
    hide AllSafe;
    hide AllClean;
    hide TuneStep;
    hide Changed;
    hide Groups;
    hide Finish;
    hide GoodClock;
    hide Based;
    hide Selected;
    hide FindShared;
    hide FindKey;
    hide WithExtension;
    hide UpdateLine;
    hide WellPlaced;
    hide Agree;
    hide Wrote;
    var base := RunKeeps(lines, c, p, env, f, input);
    var done := TuneStep(lines, c, p, env, f, input).s.lines;
    SharedPhase(lines);
    BasedLibraries(lines);
    TracksShared(base, done, Writes(lines, c, p, env, f, input));
    FinishKeepsShared(done, env.clock);
  }

  /**
    The extension is then an element of the list exactly when it was one, when its name was nowhere in
    the list, or when there was no list: a library like timescaledb_toolkit passes for it.
   */
  lemma ExtensionIsListedIff(lines: seq<string>, c: SystemConfig, p: Profile, env: Env, f: Flags, input: string, out: seq<string>)
    requires AllSafe(Groups(c, p, env.linux)) && Selected(lines) && GoodClock(env.clock)
    requires Run(lines, c, p, env, f, input) == Written(out)
    ensures FindShared(out).Some? &&
            (Lists(FindShared(out).value.libs, EXT_NAME) <==>
             match FindShared(lines)
             case None => true
             case Some(r) => Lists(r.libs, EXT_NAME) || !Contains(r.libs, EXT_NAME))
  {
    hide AllSafe;
    hide Groups;
    hide Run;
    hide GoodClock;
    hide Selected;
    hide FindShared;
    hide Contains;
    hide Lists;
    SharedLineInOrder(lines, c, p, env, f, input, out);
    ListsItself();
    match FindShared(lines)
    case None =>
    case Some(r) => ListsExtensionIff(r.libs);
  }

  lemma ListsItself()
    ensures Lists(EXT_NAME, EXT_NAME)
  {
    NameIsPlain();
    NoComma(EXT_NAME);
    hide Trimmed;
    assert Trimmed(SplitCommas(EXT_NAME)[0]) == EXT_NAME;
  }

  lemma BasedLibraries(lines: seq<string>)
    requires Selected(lines)
    ensures FindShared(Based(lines)).Some?
    ensures FindShared(Based(lines)).value.libs == match FindShared(lines)
                                                   case None => EXT_NAME
                                                   case Some(r) => WithExtension(r.libs)
  {
    hide ParseLine;
    hide FindShared;
    hide WellPlaced;
    hide UpdateLine;
    hide SharedSplit;
    hide WithExtension;
    hide MatchStart;
    hide Updated;
    hide Contains;
    SharedPhase(lines);
    hide Agree;
    hide AllClean;
    hide PLAIN_SHARED_LINE;
    if FindShared(lines).None? {
      PlainLineInOrder();
      FindSharedIs(Based(lines), |lines|);
      assert ParseLine(PLAIN_SHARED_LINE).value.libs == EXT_NAME;
    } else {
      FindSharedFacts(lines);
      var r := FindShared(lines).value;
      var line := lines[r.idx];
      UpdateIgnoresIndex(line, ParseLine(line).value, r.idx);
      var rest := UpdateLibraries(line);
      FindSharedIs(Based(lines), r.idx);
    }
  }

  /** The output of any completed run has exactly one line of each of our parameters: its fresh stamp. */
  lemma OwnParametersOnce(lines: seq<string>, c: SystemConfig, p: Profile, env: Env, f: Flags, input: string, out: seq<string>,
                                             param: string)
    requires AllSafe(Groups(c, p, env.linux)) && GoodClock(env.clock) && param in OUR_PARAMS
    requires Run(lines, c, p, env, f, input) == Written(out)
    ensures Count(out, ParamLines(param)) == 1
    ensures forall i :: 0 <= i < |out| && ParamLines(param)(out[i]) ==> out[i] == OurParamString(param, env.clock)
  {
    hide AllSafe;
    hide TuneStep;
    hide Groups;
    hide Finish;
    hide GoodClock;
    hide Count;
    hide ParamLines;
    hide OurParamString;
    OneStampEach(TuneStep(lines, c, p, env, f, input).s.lines, env.clock, param);
  }

  // ---------------------------------------------------------------- a second run

  lemma OrderSurvives(lines: seq<string>, clock: string)
    requires SharedInOrder(lines) && GoodClock(clock)
    ensures Based(Finish(lines, clock)) == Finish(lines, clock)
  {
    hide FindShared;
    hide UpdateLine;
    hide WellPlaced;
    hide Finish;
    hide GoodClock;
    var out := Finish(lines, clock);
    FinishKeepsShared(lines, clock);
    var r, r' := FindShared(lines).value, FindShared(out).value;
    UpdateIgnoresIndex(lines[r.idx], r, r'.idx);
    assert r' == r.(idx := r'.idx);
  }

  lemma TracksShared(base: seq<string>, cur: seq<string>, w: map<string, string>)
    requires Tracks(base, cur, w) && SharedInOrder(base)
    ensures SharedInOrder(cur)
  {
    hide FindKey;
    hide FindShared;
    hide UpdateLine;
    hide WellPlaced;
    hide MatchesKey;
    hide IsSharedLine;
    hide ParseLine;
    FindSharedFacts(base);
    var i := FindShared(base).value.idx;
    if cur[i] != base[i] {
      assert Assigned(base, w, i);
      var k :| k in w && FindKey(base, k).Some? && FindKey(base, k).value.idx == i;
      IndexIsInjective(base, k, k);
    }
  }

  /** On lines that are in order and settled, a run of any kind writes the same lines or stops on a refusal. */
  lemma NothingToDo(out: seq<string>, c: SystemConfig, p: Profile, env: Env, f: Flags, input: string)
    requires AllSafe(Groups(c, p, env.linux)) && Settled(Groups(c, p, env.linux), out, env.numeric)
    requires Based(out) == out && Finish(out, env.clock) == out
    ensures match Run(out, c, p, env, f, input)
            case Written(again) => again == out
            case Stopped(why) => !f.quiet && !f.yesAlways && why != ParseProblem
  {
    hide Settled;
    hide AllSafe;
    hide Groups;
    hide Finish;
    hide FindShared;
    hide SetShared;
    hide TunablesStep;
    hide TuneIndex;
    hide InRange;
    hide AskInput;
    var groups := Groups(c, p, env.linux);
    IndexInRange(out);
    assert [] + groups == groups;
    SettledUnchanged(groups, [], env, f, Session(out, input, 0));
    var (_, rest) := Ask(f, input, YesNo);
    SettledUnchanged(groups, [], env, f, Session(out, rest, 0));
  }

  /**
    Running again on what an accepted run wrote, with the same configuration, profile and clock,
    writes exactly the same lines, which are what the file is scanned into if each of them fits.  Only
    a refusal at a question can keep it from writing: not in a quiet run, not with --yes, and not when
    the input agrees to as many questions as there can be.
   */
  lemma SecondRunChangesNothing(lines: seq<string>, c: SystemConfig, p: Profile, env: Env,
                                                   f: Flags, input: string, out: seq<string>, f2: Flags, input2: string)
    requires AllSafe(Groups(c, p, env.linux)) && WellFormed(lines) && GoodClock(env.clock)
    requires AcceptedRun(lines, c, p, env, f, input, out)
    ensures ScanLines(WriteText(out)) == out <==> AllFit(out)
    ensures match Run(out, c, p, env, f2, input2)
            case Written(again) => again == out
            case Stopped(why) => !f2.quiet && !f2.yesAlways && why != ParseProblem
    ensures Ready(f2, input2, MOST_QUESTIONS) ==> Run(out, c, p, env, f2, input2) == Written(out)
  {
    AcceptedSettles(lines, c, p, env, f, input, out);
    hide AllSafe;
    hide Tracks;
    hide AllClean;
    hide Settled;
    hide TuneStep;
    hide Wrote;
    hide Passed;
    hide Chosen;
    hide Groups;
    hide Finish;
    hide GoodClock;
    hide FindShared;
    hide SharedInOrder;
    hide Based;
    hide WellPlaced;
    hide ScanLines;
    hide WriteText;
    hide Agree;
    var base := RunKeeps(lines, c, p, env, f, input);
    var done := TuneStep(lines, c, p, env, f, input).s.lines;
    SharedPhase(lines);
    TracksShared(base, done, Writes(lines, c, p, env, f, input));
    OrderSurvives(done, env.clock);
    FinishTwice(done, env.clock);
    FinishIsClean(done, env.clock);
    ScanWrittenIff(out);
    NothingToDo(out, c, p, env, f2, input2);
    hide Run;
    hide Ready;
    hide TuneIndex;
    hide NoneFail;
    if Ready(f2, input2, MOST_QUESTIONS) {
      ReadyRun(out, c, p, env, f2, input2);
    }
  }

  /** On a file without a line of any tuned parameter, a run with --yes always gets to writing, and is accepted. */
  lemma UntunedFileIsTuned(lines: seq<string>, c: SystemConfig, p: Profile, env: Env, f: Flags, input: string)
    requires AllSafe(Groups(c, p, env.linux)) && f.yesAlways
    requires forall k :: k in ALL_KEYS ==> FindKey(lines, k).None?
    ensures Run(lines, c, p, env, f, input).Written? && AcceptedRun(lines, c, p, env, f, input, Run(lines, c, p, env, f, input).lines)
  {
    hide AllSafe;
    hide Groups;
    hide Run;
    hide FindKey;
    hide ALL_KEYS;
    hide YesLines;
    hide Recommend;
    hide AcceptedRun;
    ReadyRun(lines, c, p, env, f, input);
    assert TuneIndex(lines) == map[];
    hide TuneIndex;
    NothingFails(Groups(c, p, env.linux), env.numeric);
    hide NoneFail;
    ReadyRunIsAccepted(lines, c, p, env, f, input, Run(lines, c, p, env, f, input).lines);
  }

  lemma NothingFails(groups: seq<SettingsGroup>, numeric: string -> Option<Float>)
    requires AllSafe(groups)
    ensures NoneFail(groups, map[], numeric)
  {
    hide Recommend;
  }

  // ---------------------------------------------------------------- what a run may touch

  ghost predicate TouchedBy(lines: seq<string>, w: map<string, string>, j: nat)
    requires j < |lines|
  {
    || (FindShared(lines).Some? && FindShared(lines).value.idx == j)
    || Assigned(lines, w, j)
    || (exists p :: p in OUR_PARAMS && ParamLines(p)(lines[j]))
  }

  ghost predicate AppendedBy(lines: seq<string>, w: map<string, string>, clock: string, line: string) {
    || (FindShared(lines).None? && line == PLAIN_SHARED_LINE)
    || Appended(lines, w, line)
    || (exists p :: p in OUR_PARAMS && line == OurParamString(p, clock))
  }

  /** What is on the lines at the end of a run, before lines are removed. */
  lemma StampedLines(lines: seq<string>, base: seq<string>, cur: seq<string>, w: map<string, string>, clock: string)
    requires Wrote(lines, base, cur, w)
    requires base == Based(lines)
    ensures var full := StampStep(cur, clock);
            && |cur| <= |full|
            && (forall j :: 0 <= j < |lines| && (full[j] != lines[j] || Marks(full)[j]) ==> TouchedBy(lines, w, j))
            && (forall j :: |lines| <= j < |full| ==> AppendedBy(lines, w, clock, full[j]))
  {
    hide FindKey;
    hide FindShared;
    hide ParamLines;
    hide OurParamString;
    hide StampStep;
    hide OwnerOf;
    hide Marks;
    hide Changed;
    hide SetShared;
    hide SameAt;
    hide TunableLine;
    hide PLAIN_SHARED_LINE;
    hide ALL_KEYS;
    SharedTouches(lines);
    StampLength(cur, clock);
    var full := StampStep(cur, clock);
    forall j | 0 <= j < |lines| && (full[j] != lines[j] || Marks(full)[j]) ensures TouchedBy(lines, w, j) {
      StampedAt(cur, clock, j);
      if Marks(full)[j] {
        MarkIsOwn(full, j);
      }
      if cur[j] == base[j] && base[j] != lines[j] {
        assert FindShared(lines).Some? && FindShared(lines).value.idx == j;
      }
    }
    forall j | |lines| <= j < |full| ensures AppendedBy(lines, w, clock, full[j]) {
      if j < |cur| {
        StampedAt(cur, clock, j);
        if j < |base| && cur[j] != base[j] {
          AssignedInRange(lines, w, j);
        }
      } else {
        var p := AppendedAt(cur, clock, j);
      }
    }
  }

  lemma AssignedInRange(lines: seq<string>, w: map<string, string>, j: nat)
    requires Assigned(lines, w, j)
    ensures j < |lines|
  {
    hide FindKey;
    var k :| k in w && FindKey(lines, k).Some? && FindKey(lines, k).value.idx == j;
    FindKeyInRange(lines, k);
  }

  lemma FrameOfWrites(lines: seq<string>, c: SystemConfig, p: Profile, env: Env, f: Flags, input: string, out: seq<string>)
    returns (full: seq<string>, marks: seq<bool>)
    requires AllSafe(Groups(c, p, env.linux))
    requires Run(lines, c, p, env, f, input) == Written(out)
    ensures |full| == |marks| && out == Unmarked(full, marks) && |lines| <= |full|
    ensures var w := Writes(lines, c, p, env, f, input);
            && (forall j :: 0 <= j < |lines| && (full[j] != lines[j] || marks[j]) ==> TouchedBy(lines, w, j))
            && (forall j :: |lines| <= j < |full| ==> AppendedBy(lines, w, env.clock, full[j]))
            && (forall k :: k in w && FindKey(lines, k).Some? ==>
                  var r := FindKey(lines, k).value;
                  r.idx < |full| && full[r.idx] == TunableLine(k, w[k], r.extra) && !marks[r.idx])
  {
    hide AllSafe;
    hide Tracks;
    hide AllClean;
    hide TuneStep;
    hide Groups;
    hide TouchedBy;
    hide AppendedBy;
    hide StampStep;
    hide Marks;
    hide Based;
    hide Unmarked;
    hide FindKey;
    hide Changed;
    hide TunableLine;
    hide Writes;
    hide Agree;
    hide Appended;
    var base := RunKeeps(lines, c, p, env, f, input);
    var w := Writes(lines, c, p, env, f, input);
    var done := TuneStep(lines, c, p, env, f, input).s.lines;
    full, marks := StampStep(done, env.clock), Marks(StampStep(done, env.clock));
    StampedLines(lines, base, done, w, env.clock);
    forall k | k in w && FindKey(lines, k).Some?
      ensures var r := FindKey(lines, k).value;
              r.idx < |full| && full[r.idx] == TunableLine(k, w[k], r.extra) && !marks[r.idx]
    {
      WrittenAreGood(lines, c, p, env, f, input, k);
      SettingStays(lines, done, env.clock, k, w[k]);
    }
  }

  lemma WrittenAreGood(lines: seq<string>, c: SystemConfig, p: Profile, env: Env, f: Flags, input: string, k: string)
    requires AllSafe(Groups(c, p, env.linux)) && k in Writes(lines, c, p, env, f, input)
    ensures GoodValue(Writes(lines, c, p, env, f, input)[k]) && k in ALL_KEYS
  {
    hide Groups;
    hide Chosen;
    hide Writes;
    hide Recommend;
    hide DecideIn;
    hide TuneIndex;
    hide GoodValue;
    hide GoodGroups;
    WritesIff(lines, c, p, env, f, input);
    var g :| g in Chosen(lines, c, p, env, f, input) && Proposed(g, TuneIndex(lines), env.numeric, k);
    RecommendationIsGood(g.recommender, k);
    GroupsAreGood(c, p, env.linux);
    GoodMember(Groups(c, p, env.linux), g);
    hide ALL_KEYS;
  }

  /** The line of a written setting is neither stamped over nor removed. */
  lemma SettingStays(lines: seq<string>, cur: seq<string>, clock: string, k: string, v: string)
    requires k in ALL_KEYS && GoodValue(v) && FindKey(lines, k).Some?
    requires var r := FindKey(lines, k).value; r.idx < |cur| && cur[r.idx] == TunableLine(k, v, r.extra)
    ensures var r, full := FindKey(lines, k).value, StampStep(cur, clock);
            r.idx < |full| && full[r.idx] == cur[r.idx] && !Marks(full)[r.idx]
  {
    hide FindKey;
    hide GoodValue;
    hide TunableLine;
    hide MatchesKey;
    hide ParseKey;
    hide ParseParam;
    hide KeyLike;
    hide IsTail;
    hide IsSharedLine;
    hide StampStep;
    hide Marks;
    hide OurParamString;
    NamesAreKeyLike();
    OwnNamesDiffer();
    FindKeyFacts(lines, k);
    var r := FindKey(lines, k).value;
    MatchedShape(lines[r.idx], k);
    RewrittenLine(k, v, r.extra, lines[r.idx]);
    StampLength(cur, clock);
    StampedAt(cur, clock, r.idx);
    hide ALL_KEYS;
    if Marks(StampStep(cur, clock))[r.idx] {
      MarkIsOwn(StampStep(cur, clock), r.idx);
    }
  }

  /** Line `j` is the last line of a setting that a chosen group proposes. */
  ghost predicate LastLineOfChosen(lines: seq<string>, chosen: seq<SettingsGroup>, numeric: string -> Option<Float>, j: nat)
    requires AllPanicFree(chosen)
  {
    exists g, k :: g in chosen && Proposed(g, TuneIndex(lines), numeric, k) && FindKey(lines, k).Some? && FindKey(lines, k).value.idx == j
  }

  /** The lines a run may alter or remove: the selected shared-library line, those of the settings it writes, and our own. */
  ghost predicate MayTouch(lines: seq<string>, chosen: seq<SettingsGroup>, numeric: string -> Option<Float>, j: nat)
    requires j < |lines| && AllPanicFree(chosen)
  {
    || (FindShared(lines).Some? && FindShared(lines).value.idx == j)
    || LastLineOfChosen(lines, chosen, numeric, j)
    || (exists p :: p in OUR_PARAMS && ParamLines(p)(lines[j]))
  }

  /** The line is what a chosen group recommends for a parameter that has none. */
  ghost predicate NewLineOfChosen(lines: seq<string>, chosen: seq<SettingsGroup>, numeric: string -> Option<Float>, line: string)
    requires AllPanicFree(chosen)
  {
    exists g, k :: g in chosen && Proposed(g, TuneIndex(lines), numeric, k) && FindKey(lines, k).None? &&
                   line == TunableLine(k, Recommend(g.recommender, k), "")
  }

  /** The lines a run may append: for shared libraries, for a setting without a line, and its stamps. */
  ghost predicate MayAppend(lines: seq<string>, chosen: seq<SettingsGroup>, env: Env, line: string)
    requires AllPanicFree(chosen)
  {
    || (FindShared(lines).None? && line == PLAIN_SHARED_LINE)
    || NewLineOfChosen(lines, chosen, env.numeric, line)
    || (exists p :: p in OUR_PARAMS && line == OurParamString(p, env.clock))
  }

  lemma AssignedToChosen(lines: seq<string>, c: SystemConfig, p: Profile, env: Env, f: Flags, input: string)
    requires AllSafe(Groups(c, p, env.linux))
    ensures var w, chosen := Writes(lines, c, p, env, f, input), Chosen(lines, c, p, env, f, input);
            AllPanicFree(chosen) &&
            (forall j :: Assigned(lines, w, j) ==> LastLineOfChosen(lines, chosen, env.numeric, j)) &&
            (forall line :: Appended(lines, w, line) ==> NewLineOfChosen(lines, chosen, env.numeric, line))
  {
    hide Groups;
    hide Chosen;
    hide Writes;
    hide TuneIndex;
    hide FindKey;
    hide Recommend;
    hide Proposed;
    hide TunableLine;
    ChosenAreSafe(lines, c, p, env, f, input);
    WritesIff(lines, c, p, env, f, input);
    var w, chosen := Writes(lines, c, p, env, f, input), Chosen(lines, c, p, env, f, input);
    forall j | Assigned(lines, w, j) ensures LastLineOfChosen(lines, chosen, env.numeric, j) {
      var k :| k in w && FindKey(lines, k).Some? && FindKey(lines, k).value.idx == j;
      var g :| g in chosen && Proposed(g, TuneIndex(lines), env.numeric, k);
    }
    forall line | Appended(lines, w, line) ensures NewLineOfChosen(lines, chosen, env.numeric, line) {
      var k :| k in w && FindKey(lines, k).None? && line == TunableLine(k, w[k], "");
      var g :| g in chosen && Proposed(g, TuneIndex(lines), env.numeric, k);
    }
  }

  /**
    Any completed run on any lines.  Only lines it may touch are altered or removed and only lines it
    may append are appended; all others survive verbatim and in order.  A setting that is kept, skipped
    or not available is not touched, and every proposal of a chosen group is on its line.
   */
  lemma Frame(lines: seq<string>, c: SystemConfig, p: Profile, env: Env, f: Flags, input: string, out: seq<string>)
    returns (full: seq<string>, marks: seq<bool>)
    requires AllSafe(Groups(c, p, env.linux))
    requires Run(lines, c, p, env, f, input) == Written(out)
    ensures |full| == |marks| && out == Unmarked(full, marks) && |lines| <= |full|
    ensures var chosen := Chosen(lines, c, p, env, f, input);
            && AllPanicFree(chosen)
            && (forall j :: 0 <= j < |lines| && (full[j] != lines[j] || marks[j]) ==> MayTouch(lines, chosen, env.numeric, j))
            && (forall j :: |lines| <= j < |full| ==> MayAppend(lines, chosen, env, full[j]))
            && (forall g, k :: g in chosen && Proposed(g, TuneIndex(lines), env.numeric, k) && FindKey(lines, k).Some? ==>
                  var r := FindKey(lines, k).value;
                  r.idx < |full| && full[r.idx] == TunableLine(k, Recommend(g.recommender, k), r.extra) && !marks[r.idx])
  {
    hide Groups;
    hide Run;
    hide Chosen;
    hide Writes;
    hide TuneIndex;
    hide FindKey;
    hide FindShared;
    hide Recommend;
    hide Proposed;
    hide TunableLine;
    hide OurParamString;
    hide ParamLines;
    hide PLAIN_SHARED_LINE;
    hide Assigned;
    hide Appended;
    hide LastLineOfChosen;
    hide NewLineOfChosen;
    AssignedToChosen(lines, c, p, env, f, input);
    WritesIff(lines, c, p, env, f, input);
    full, marks := FrameOfWrites(lines, c, p, env, f, input, out);
  }

  /**
    In quiet mode, on any lines, the writes counted when the question is due are the lines changed or
    appended so far, so "no changes needed" is reported exactly when the lines are what they were.
   */
  lemma QuietTellsTheTruth(lines: seq<string>, c: SystemConfig, p: Profile, env: Env, f: Flags, input: string)
    requires AllSafe(Groups(c, p, env.linux)) && f.quiet
    ensures var s := TuneStep(lines, c, p, env, f, input).State();
            |lines| <= |s.lines| && s.writes == Changed(lines, s.lines) && (s.writes == 0 <==> s.lines == lines)
  {
    hide AllSafe;
    hide Tracks;
    hide AllClean;
    hide TuneStep;
    hide Changed;
    hide Groups;
    hide Based;
    hide Writes;
    hide Agree;
    hide FindKey;
    hide Appended;
    hide Assigned;
    var base := RunKeeps(lines, c, p, env, f, input);
    ChangedZeroIff(lines, TuneStep(lines, c, p, env, f, input).State().lines);
  }
}
