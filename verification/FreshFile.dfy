/** Exactly what a run makes of a file that has none of the tuned parameters: the settings of each group, in order. */
module FreshFile {
  import opened Text
  import opened Lines
  import opened Changes
  import opened TuneSettings
  import opened LineGrammar
  import opened SharedPreloadLibs
  import opened LineKinds
  import opened PgTune
  import opened Tuning
  import opened Recommendations
  import opened StaleIndex
  import opened Acceptance
  import opened Settling
  import opened Finishing
  import opened Runs
  import opened Prompting
  import opened Theorems

  /** A line for each parameter with a recommendation. */
  ghost function NewLines(r: Recommender, keys: seq<string>): seq<string>
    requires Safe(r)
  {
    if |keys| == 0 then []
    else
      (if Recommend(r, keys[0]) != NO_RECOMMENDATION then [TunableLine(keys[0], Recommend(r, keys[0]), "")] else []) +
      NewLines(r, keys[1..])
  }

  ghost function AllNewLines(groups: seq<SettingsGroup>): seq<string>
    requires AllSafe(groups)
    decreases groups
  {
    if |groups| == 0 then []
    else (if IsAvailable(groups[0].recommender) then NewLines(groups[0].recommender, groups[0].keys) else []) + AllNewLines(groups[1..])
  }

  /** What is shown of a setting nothing was read of. */
  lemma RewrittenFresh(g: SettingsGroup, keys: seq<string>, numeric: string -> Option<Float>)
    requires Safe(g.recommender) && |keys| > 0
    ensures Rewritten(g, keys, map[], numeric) ==
            (if Recommend(g.recommender, keys[0]) != NO_RECOMMENDATION then [keys[0]] else []) + Rewritten(g, keys[1..], map[], numeric)
  {
    hide Recommend;
    ShownFresh(g, keys[0], numeric);
    hide DecideIn;
    var rest := Rewritten(g, keys[1..], map[], numeric);
    assert [] + rest == rest;
  }

  lemma ShownFresh(g: SettingsGroup, k: string, numeric: string -> Option<Float>)
    requires Guard(g.recommender, k)
    ensures DecideIn(g, map[], numeric, k) == Show
  {
    hide Recommend;
    hide Guard;
  }

  lemma SetKeysFirst(lines: seq<string>, g: SettingsGroup, k: string, more: seq<string>)
    requires Safe(g.recommender)
    ensures SetKeys(lines, g, [k] + more, map[]) == SetKeys(lines + [TunableLine(k, Recommend(g.recommender, k), "")], g, more, map[])
  {
    hide Recommend;
    hide TunableLine;
    assert ([k] + more)[1..] == more;
  }

  lemma {:induction false} NewKeys(lines: seq<string>, g: SettingsGroup, keys: seq<string>, numeric: string -> Option<Float>)
    requires Safe(g.recommender)
    ensures SetKeys(lines, g, Rewritten(g, keys, map[], numeric), map[]) == lines + NewLines(g.recommender, keys)
    decreases |keys|
  {
    if |keys| == 0 {
      assert lines + [] == lines;
    } else {
      RewrittenFresh(g, keys, numeric);
      hide Recommend;
      hide TunableLine;
      hide Rewritten;
      hide SetKeys;
      hide Safe;
      var k, rest := keys[0], keys[1..];
      var more, line := Rewritten(g, rest, map[], numeric), TunableLine(k, Recommend(g.recommender, k), "");
      SetKeysFirst(lines, g, k, more);
      NewKeys(lines + [line], g, rest, numeric);
      NewKeys(lines, g, rest, numeric);
      EmptyBefore(more, NewLines(g.recommender, rest));
      ThreeParts(lines, [line], NewLines(g.recommender, rest));
    }
  }

  lemma EmptyBefore(a: seq<string>, b: seq<string>)
    ensures [] + a == a && [] + b == b
  {
  }

  lemma NothingToRead(g: SettingsGroup, numeric: string -> Option<Float>)
    requires Safe(g.recommender)
    ensures !SomeFail(g, map[], numeric) && (SomeShown(g, map[], numeric) <==> |g.keys| > 0)
    ensures |g.keys| == 0 ==> NewLines(g.recommender, g.keys) == []
  {
    hide Recommend;
    if |g.keys| > 0 {
      assert g.keys[0] in g.keys;
    }
  }

  lemma {:induction false} NewGroups(groups: seq<SettingsGroup>, env: Env, f: Flags, s: Session)
    requires AllSafe(groups) && f.yesAlways
    ensures var r := TunablesStep(groups, map[], env, f, s); r.Go? && r.s.lines == s.lines + AllNewLines(groups)
    decreases groups
  {
    hide Safe;
    hide SomeFail;
    hide SomeShown;
    hide Rewritten;
    hide SetKeys;
    hide NewLines;
    if |groups| > 0 {
      var g := groups[0];
      if !IsAvailable(g.recommender) {
        NewGroups(groups[1..], env, f, s);
        assert [] + AllNewLines(groups[1..]) == AllNewLines(groups[1..]);
      } else {
        NothingToRead(g, env.numeric);
        NewKeys(s.lines, g, g.keys, env.numeric);
        assert s.lines + [] == s.lines;
        var r := GroupStep(g, map[], env, f, s);
        NewGroups(groups[1..], env, f, r.s);
        ThreeParts(s.lines, NewLines(g.recommender, g.keys), AllNewLines(groups[1..]));
      }
    }
  }

  lemma ThreeParts(a: seq<string>, b: seq<string>, c: seq<string>)
    ensures (a + b) + c == a + (b + c)
  {
  }

  /**
    With --yes, a file without a line of any tuned parameter gets, after the shared-library phase, the
    recommendations of the available groups, in the order of the groups and of their parameters, and the stamps.
   */
  lemma UntunedFileGets(lines: seq<string>, c: SystemConfig, p: Profile, env: Env, f: Flags, input: string)
    requires AllSafe(Groups(c, p, env.linux)) && f.yesAlways
    requires forall k :: k in ALL_KEYS ==> FindKey(lines, k).None?
    ensures Run(lines, c, p, env, f, input) == Written(Finish(Based(lines) + AllNewLines(Groups(c, p, env.linux)), env.clock))
  {
    hide AllSafe;
    hide Groups;
    hide FindKey;
    hide ALL_KEYS;
    hide Finish;
    hide FindShared;
    hide TunablesStep;
    hide AllNewLines;
    hide InRange;
    assert TuneIndex(lines) == map[];
    hide TuneIndex;
    IndexInRange(lines);
    hide SetShared;
    var groups, based := Groups(c, p, env.linux), Based(lines);
    if f.quiet {
      NewGroups(groups, env, f, Session(based, input, if based == lines then 0 else 1));
    } else {
      NewGroups(groups, env, f, Session(based, input, 0));
    }
  }

  lemma {:induction false} NewLinesAreNotOwn(r: Recommender, keys: seq<string>)
    requires Safe(r) && Known(keys)
    ensures forall i, p :: 0 <= i < |NewLines(r, keys)| && p in OUR_PARAMS ==> !ParamLines(p)(NewLines(r, keys)[i])
    decreases |keys|
  {
    hide Recommend;
    hide TunableLine;
    hide ParseParam;
    hide ALL_KEYS;
    if |keys| > 0 {
      NewLinesAreNotOwn(r, keys[1..]);
      assert keys[0] in ALL_KEYS;
      if Recommend(r, keys[0]) != NO_RECOMMENDATION {
        RecommendationIsGood(r, keys[0]);
        SettingIsNotOwn(keys[0], Recommend(r, keys[0]));
      }
    }
  }

  lemma SettingIsNotOwn(k: string, v: string)
    requires k in ALL_KEYS && GoodValue(v)
    ensures forall p :: p in OUR_PARAMS ==> !ParamLines(p)(TunableLine(k, v, ""))
  {
    hide KeyLike;
    hide GoodValue;
    hide TunableLine;
    hide MatchesKey;
    hide ParseKey;
    hide ParseParam;
    hide IsSharedLine;
    hide IsTail;
    NamesAreKeyLike();
    OwnNamesDiffer();
    NothingIsNotShared();
    RewrittenLine(k, v, "", "");
    hide ALL_KEYS;
  }

  lemma {:induction false} AllNewLinesAreNotOwn(groups: seq<SettingsGroup>)
    requires AllSafe(groups) && forall g :: g in groups ==> Known(g.keys)
    ensures forall i, p :: 0 <= i < |AllNewLines(groups)| && p in OUR_PARAMS ==> !ParamLines(p)(AllNewLines(groups)[i])
    decreases groups
  {
    hide Safe;
    hide NewLines;
    hide ParamLines;
    hide Known;
    if |groups| > 0 {
      AllNewLinesAreNotOwn(groups[1..]);
      if IsAvailable(groups[0].recommender) {
        NewLinesAreNotOwn(groups[0].recommender, groups[0].keys);
      }
    }
  }

  /** An empty file, written out in full. */
  lemma EmptyFileGets(c: SystemConfig, p: Profile, env: Env, f: Flags, input: string)
    requires AllSafe(Groups(c, p, env.linux)) && f.yesAlways && GoodClock(env.clock)
    ensures Run([], c, p, env, f, input) ==
            Written(["shared_preload_libraries = 'timescaledb'"] + AllNewLines(Groups(c, p, env.linux)) +
                    ["timescaledb.last_tuned = '" + env.clock + "'", "timescaledb.last_tuned_version = '0.19.0'"])
  {
    hide Groups;
    hide AllNewLines;
    hide Finish;
    hide ParamLines;
    hide GoodClock;
    hide Run;
    hide AllSafe;
    hide GoodGroups;
    NothingThere();
    hide FindKey;
    hide FindShared;
    UntunedFileGets([], c, p, env, f, input);
    var groups := Groups(c, p, env.linux);
    GroupsAreGood(c, p, env.linux);
    forall g | g in groups ensures Known(g.keys) {
      GoodMember(groups, g);
    }
    AllNewLinesAreNotOwn(groups);
    PlainSharedLineIsNotOwn();
    assert [] + [PLAIN_SHARED_LINE] == [PLAIN_SHARED_LINE];
    FreshStamps([PLAIN_SHARED_LINE] + AllNewLines(groups), env.clock);
  }

  lemma NothingThere()
    ensures FindShared([]) == None && forall k :: FindKey([], k) == None
  {
  }

  lemma PlainSharedLineIsNotOwn()
    ensures PLAIN_SHARED_LINE == "shared_preload_libraries = 'timescaledb'"
    ensures forall p :: p in OUR_PARAMS ==> !ParamLines(p)(PLAIN_SHARED_LINE)
  {
    PlainLineInOrder();
    NamesAreKeyLike();
    LibNameIsOther();
    hide ParseLine;
    hide WellPlaced;
    hide UpdateLine;
    hide ParseParam;
    hide KeyLike;
    hide Clean;
    forall p | p in OUR_PARAMS ensures !ParamLines(p)(PLAIN_SHARED_LINE) {
      SharedNotParam(PLAIN_SHARED_LINE, p);
    }
  }
}
