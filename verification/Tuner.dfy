/** The tuner itself (tuner.go): every method is proved to compute the corresponding function of module Tuning. */
module Tuner {
  import opened Text
  import opened Lines
  import opened Regex
  import opened TuneSettings
  import opened LineGrammar
  import opened SharedPreloadLibs
  import opened PgTune
  import opened Tuning
  import opened Recommendations
  import opened ConfigFile
  import opened Finishing
  import opened Runs

  /** counterWriter: counts the writes made through it. */
  class CounterWriter {
    var count: nat

    constructor ()
      ensures count == 0
    {
      count := 0;
    }

    method Write()
      modifies this
      ensures count == old(count) + 1
    {
      count := count + 1;
    }
  }

  /** checkIfShouldShowSetting: None is the source's "unexpected parsing problem". */
  method CheckIfShouldShowSetting(keys: seq<string>, parseResults: map<string, ParseResult>, recommender: Recommender,
                                  numeric: string -> Option<Float>) returns (show: Option<set<string>>)
    requires Safe(recommender)
    ensures show.None? <==> exists k :: k in keys && DecideFor(recommender, parseResults, numeric, k) == Fail
    ensures show.Some? ==> forall k :: k in show.value <==> k in keys && DecideFor(recommender, parseResults, numeric, k) == Show
  {
    var shown: set<string> := {};
    for i := 0 to |keys|
      invariant forall k :: k in shown <==> k in keys[..i] && DecideFor(recommender, parseResults, numeric, k) == Show
      invariant forall k :: k in keys[..i] ==> DecideFor(recommender, parseResults, numeric, k) != Fail
    {
      var k := keys[i];
      assert keys[..i + 1] == keys[..i] + [k];
      if k !in parseResults {
        shown := shown + {k};
        continue;
      }
      var r := parseResults[k];
      var rv := GetFloatParser(recommender);
      var rec := Recommend(recommender, k);
      if rec == NO_RECOMMENDATION {
        continue;
      } else if r.commented {
        shown := shown + {k};
      } else if r.value == rec {
        continue;
      }
      var curr := ParseFloat(rv, numeric, k, r.value);
      if curr.None? {
        shown := shown + {k};
        continue;
      }
      var target := ParseFloat(rv, numeric, k, rec);
      if target.None? {
        assert k in keys && DecideFor(recommender, parseResults, numeric, k) == Fail;
        return None;
      }
      if !CloseEnough(curr.value, target.value) {
        shown := shown + {k};
      }
    }
    assert keys[..|keys|] == keys;
    return Some(shown);
  }

  class Tuner {
    const cfs: ConfigFileState
    const flags: Flags
    const env: Env
    var input: string
    var counter: CounterWriter?

    constructor (cfs: ConfigFileState, flags: Flags, env: Env, input: string)
      ensures this.cfs == cfs && this.flags == flags && this.env == env && this.input == input && counter == null
    {
      this.cfs := cfs;
      this.flags := flags;
      this.env := env;
      this.input := input;
      counter := null;
    }

    predicate Valid()
      reads this, cfs, cfs.lines
    {
      cfs.Valid() && (counter != null <==> flags.quiet)
    }

    function Writes(): nat
      reads this, counter
    {
      if counter == null then 0 else counter.count
    }

    /** The session a run is in. */
    function Now(): Session
      reads this, cfs, counter
    {
      Session(Contents(cfs.lines), input, Writes())
    }

    // -------------------------------------------------------------- prompts

    /** forcePromptUntilValidInput */
    method ForcePromptUntilValidInput(checker: Checker) returns (a: Answer)
      modifies this`input
      ensures (a, input) == AskInput(old(input), checker)
    {
      while true
        invariant AskInput(input, checker) == AskInput(old(input), checker)
        decreases |input|
      {
        match IndexFrom(input, "\n", 0)
        case None =>
          input := "";
          return NoInput;
        case Some(i) =>
          var resp := input[..i + 1];
          input := input[i + 1..];
          var r := Lower(TrimSpace(resp));
          var ok := Check(checker, r);
          if ok.Some? {
            return ok.value;
          }
      }
    }

    /** promptUntilValidInput */
    method PromptUntilValidInput(checker: Checker) returns (a: Answer)
      modifies this`input
      ensures (a, input) == Ask(flags, old(input), checker)
    {
      if flags.yesAlways {
        return Yes;
      }
      a := ForcePromptUntilValidInput(checker);
    }

    /** A print to the handler's output. */
    method Fprintf()
      modifies counter
      ensures Writes() == if counter == null then 0 else old(Writes()) + 1
    {
      if counter != null {
        counter.Write();
      }
    }

    /** The state and the error are those of a step. */
    predicate Reached(step: Step, err: Option<Reason>)
      reads this, cfs, counter
    {
      Now() == step.State() && err == if step.Halt? then Some(step.why) else None
    }

    // -------------------------------------------------------------- the shared-library line

    /** Lines are replaced by new line objects, never altered. */
    twostate predicate OnlyNewLines()
      reads this, cfs
    {
      forall i :: 0 <= i < |cfs.lines| ==> cfs.lines[i] in old(cfs.lines) || fresh(cfs.lines[i])
    }

    method AppendLine(content: string)
      requires cfs.Valid()
      modifies cfs`lines
      ensures cfs.Valid() && OnlyNewLines() && Contents(cfs.lines) == old(Contents(cfs.lines)) + [content]
    {
      var line := new ConfigLine(content);
      cfs.lines := cfs.lines + [line];
    }

    method ReplaceLine(idx: nat, content: string)
      requires cfs.Valid() && idx < |cfs.lines|
      modifies cfs`lines
      ensures cfs.Valid() && OnlyNewLines() && Contents(cfs.lines) == old(Contents(cfs.lines))[idx := content]
    {
      var line := new ConfigLine(content);
      cfs.lines := cfs.lines[idx := line];
    }

    /** processNoSharedLibLine */
    method ProcessNoSharedLibLine() returns (err: Option<Reason>)
      requires Valid() && !flags.quiet && cfs.sharedLibResult.None?
      modifies this`input, cfs`lines
      ensures Valid() && OnlyNewLines() && Reached(SharedStep(None, flags, old(Now())), err)
    {
      var a := PromptUntilValidInput(YesNo);
      if a != Yes {
        return Some(Refusal(a));
      }
      AppendLine(PLAIN_SHARED_LINE);
      return None;
    }

    /** processSharedLibLine */
    method ProcessSharedLibLine() returns (err: Option<Reason>)
      requires Valid() && !flags.quiet
      modifies this`input, cfs`lines
      ensures Valid() && OnlyNewLines() && Reached(SharedStep(cfs.sharedLibResult, flags, old(Now())), err)
    {
      if cfs.sharedLibResult.None? {
        err := ProcessNoSharedLibLine();
        return;
      }
      var res := cfs.sharedLibResult.value;
      var idx := res.idx;
      var newLine := UpdateLine(cfs.lines[idx].content, res);
      ghost var before := Contents(cfs.lines);
      assert before[idx := newLine] == before <==> newLine == before[idx];
      if newLine == cfs.lines[idx].content {
        return None;
      }
      var a := PromptUntilValidInput(YesNo);
      if a != Yes {
        return Some(Refusal(a));
      }
      ReplaceLine(idx, newLine);
      return None;
    }

    // -------------------------------------------------------------- the settings

    /** processSettingsGroup */
    method ProcessSettingsGroup(sg: SettingsGroup) returns (err: Option<Reason>)
      requires Valid() && Safe(sg.recommender)
      modifies this`input, cfs`lines, counter
      ensures Valid() && OnlyNewLines()
      ensures Reached(GroupStep(sg, cfs.tuneParseResults, env, flags, old(Now())), err)
    {
      hide Recommend;
      hide DecideFor;
      hide Rewritten;
      hide SetKeys;
      hide Contents;
      var keys, tune := sg.keys, cfs.tuneParseResults;
      var show := CheckIfShouldShowSetting(keys, tune, sg.recommender, env.numeric);
      if show.None? {
        return Some(ParseProblem);
      }
      if show.value == {} {
        return None;
      }
      PrintRecommendations(sg, show.value);
      if !flags.quiet {
        var a := PromptUntilValidInput(SkipQuit);
        if a == Skip {
          return None;
        } else if a != Yes {
          return Some(Refusal(a));
        }
      }
      WriteRecommendations(sg, show.value);
      return None;
    }

    /** The recommendations that will be written, printed one by one. */
    method PrintRecommendations(sg: SettingsGroup, show: set<string>)
      requires Valid() && Safe(sg.recommender)
      requires forall k :: k in show <==> k in sg.keys && DecideIn(sg, cfs.tuneParseResults, env.numeric, k) == Show
      modifies counter
      ensures Writes() == old(Writes()) + if flags.quiet then |Rewritten(sg, sg.keys, cfs.tuneParseResults, env.numeric)| else 0
    {
      hide Recommend;
      hide DecideIn;
      hide Rewritten;
      hide Contents;
      ghost var tune := cfs.tuneParseResults;
      var keys := sg.keys;
      assert keys[0..] == keys;
      for i := 0 to |keys|
        invariant Writes() + (if flags.quiet then |Rewritten(sg, keys[i..], tune, env.numeric)| else 0) ==
                  old(Writes()) + if flags.quiet then |Rewritten(sg, keys, tune, env.numeric)| else 0
      {
        var k := keys[i];
        RewrittenStep(sg, keys, i, tune, env.numeric);
        if k in show && Recommend(sg.recommender, k) != NO_RECOMMENDATION {
          Fprintf();
        }
      }
      NoKeysLeft(sg, keys, tune, env.numeric);
    }

    /** The update of the lines, through the index of the scan. */
    method WriteRecommendations(sg: SettingsGroup, show: set<string>)
      requires Valid() && Safe(sg.recommender)
      requires forall k :: k in show <==> k in sg.keys && DecideIn(sg, cfs.tuneParseResults, env.numeric, k) == Show
      modifies cfs`lines
      ensures Valid() && OnlyNewLines()
      ensures var tune := cfs.tuneParseResults;
              Contents(cfs.lines) == SetKeys(old(Contents(cfs.lines)), sg, Rewritten(sg, sg.keys, tune, env.numeric), tune)
    {
      hide Recommend;
      hide DecideIn;
      hide TunableLine;
      hide SetKeys;
      hide Rewritten;
      hide Contents;
      var keys, tune := sg.keys, cfs.tuneParseResults;
      ghost var before := Contents(cfs.lines);
      assert keys[0..] == keys;
      for i := 0 to |keys|
        invariant Valid() && OnlyNewLines() && InRange(tune, Contents(cfs.lines))
        invariant SetKeys(Contents(cfs.lines), sg, Rewritten(sg, keys[i..], tune, env.numeric), tune) ==
                  SetKeys(before, sg, Rewritten(sg, keys, tune, env.numeric), tune)
      {
        var k := keys[i];
        ghost var rest := Rewritten(sg, keys[i + 1..], tune, env.numeric);
        RewrittenStep(sg, keys, i, tune, env.numeric);
        if k in show {
          var rec := Recommend(sg.recommender, k);
          if rec != NO_RECOMMENDATION {
            ghost var now := Contents(cfs.lines);
            SetKeysStep(now, sg, k, rest, tune);
            if k in tune {
              var r := tune[k];
              ReplaceLine(r.idx, TunableLine(r.key, rec, r.extra));
            } else {
              AppendLine(TunableLine(k, rec, ""));
            }
          }
        }
      }
      NothingRewritten(Contents(cfs.lines), sg, keys, tune, env.numeric);
    }

    /** processTunables */
    method ProcessTunables(c: SystemConfig, p: Profile) returns (err: Option<Reason>)
      requires Valid() && AllSafe(Groups(c, p, env.linux))
      modifies this`input, cfs`lines, counter
      ensures Valid() && OnlyNewLines()
      ensures Reached(TunablesStep(Groups(c, p, env.linux), cfs.tuneParseResults, env, flags, old(Now())), err)
    {
      hide GetSettingsGroup;
      hide Safe;
      hide GroupStep;
      hide Contents;
      ghost var groups := Groups(c, p, env.linux);
      ghost var tune := cfs.tuneParseResults;
      assert groups[0..] == groups;
      for i := 0 to |TUNABLES|
        invariant Valid() && OnlyNewLines() && AllSafe(groups[i..])
        invariant TunablesStep(groups[i..], tune, env, flags, Now()) == TunablesStep(groups, tune, env, flags, old(Now()))
      {
        var sg := GetSettingsGroup(TUNABLES[i], c, p, env.linux);
        assert groups[i..][0] == sg && groups[i..][1..] == groups[i + 1..];
        if IsAvailable(sg.recommender) {
          err := ProcessSettingsGroup(sg);
          if err.Some? {
            return;
          }
        }
      }
      return None;
    }

    // -------------------------------------------------------------- our own parameters

    /**
      The backward search of processOurParams, with the patterns tried on each line in any order and
      deleted as they are found.
     */
    method FindOurParams() returns (found: map<string, nat>, missing: set<string>)
      requires cfs.Valid()
      ensures forall p :: p in OUR_PARAMS ==>
                match Last(Contents(cfs.lines), ParamLines(p))
                case Some(i) => p in found && found[p] == i && p !in missing
                case None => p !in found && p in missing
      ensures found.Keys <= set p | p in OUR_PARAMS
    {
      hide Last;
      hide ParamLines;
      hide ParseWithRegex;
      hide Searched;
      ghost var contents := Contents(cfs.lines);
      found, missing := map[], set p | p in OUR_PARAMS;
      NothingSearched(contents, missing);
      var i := |cfs.lines|;
      while i > 0 && missing != {}
        invariant 0 <= i <= |cfs.lines| && missing <= (set p | p in OUR_PARAMS) && found.Keys <= set p | p in OUR_PARAMS
        invariant forall p :: p in OUR_PARAMS ==> Searched(contents, found, missing, p, i)
      {
        i := i - 1;
        var todo := missing;
        NotMissingStays(contents, found, missing, i);
        while todo != {}
          invariant todo <= missing <= (set p | p in OUR_PARAMS) && found.Keys <= set p | p in OUR_PARAMS
          invariant forall p :: p in OUR_PARAMS ==> Searched(contents, found, missing, p, if p in todo then i + 1 else i)
          decreases todo
        {
          var param :| param in todo;
          SearchStep(contents, found, missing, param, i);
          if ParseWithRegex(cfs.lines[i].content, KeyToRegexQuoted(param)).Some? {
            found := found[param := i];
            missing := missing - {param};
          }
          todo := todo - {param};
        }
      }
      forall p | p in OUR_PARAMS
        ensures match Last(contents, ParamLines(p))
                case Some(j) => p in found && found[p] == j && p !in missing
                case None => p !in found && p in missing
      {
        SearchedAll(contents, found, missing, p, i);
      }
    }

    /** The found lines stamped, in any order. */
    method StampFound(found: map<string, nat>)
      requires cfs.Valid()
      requires found.Keys <= set p | p in OUR_PARAMS
      requires forall p :: p in found ==> Last(Contents(cfs.lines), ParamLines(p)) == Some(found[p])
      requires forall p :: p in OUR_PARAMS && Last(Contents(cfs.lines), ParamLines(p)).Some? ==> p in found
      modifies cfs`lines
      ensures cfs.Valid() && OnlyNewLines()
      ensures Contents(cfs.lines) == Restamp(old(Contents(cfs.lines)), env.clock)
    {
      hide Last;
      hide ParamLines;
      hide OwnerOf;
      hide OurParamString;
      hide PartlyStamped;
      hide Restamp;
      ghost var before := Contents(cfs.lines);
      var todo := found.Keys;
      NothingStamped(before, todo, env.clock);
      while todo != {}
        invariant cfs.Valid() && OnlyNewLines() && todo <= found.Keys && |cfs.lines| == |before|
        invariant PartlyStamped(before, todo, env.clock, Contents(cfs.lines))
        decreases todo
      {
        var param :| param in todo;
        OneStamped(before, todo, env.clock, Contents(cfs.lines), param, found[param]);
        ReplaceLine(found[param], OurParamString(param, env.clock));
        todo := todo - {param};
      }
      AllStamped(before, env.clock, Contents(cfs.lines));
    }

    /** processOurParams: the found lines are stamped, and the missing stamps appended in order. */
    method ProcessOurParams()
      requires cfs.Valid()
      modifies cfs`lines
      ensures cfs.Valid() && OnlyNewLines()
      ensures Contents(cfs.lines) == StampStep(old(Contents(cfs.lines)), env.clock)
    {
      hide Last;
      hide ParamLines;
      hide OurParamString;
      hide Restamp;
      ghost var before := Contents(cfs.lines);
      var found, missing := FindOurParams();
      StampFound(found);
      assert OUR_PARAMS[0..] == OUR_PARAMS;
      for j := 0 to |OUR_PARAMS|
        invariant cfs.Valid() && OnlyNewLines()
        invariant Contents(cfs.lines) + Stamps(Absent(before, OUR_PARAMS[j..]), env.clock) == StampStep(before, env.clock)
      {
        var param := OUR_PARAMS[j];
        assert OUR_PARAMS[j..][0] == param && OUR_PARAMS[j..][1..] == OUR_PARAMS[j + 1..];
        ghost var now, rest := Contents(cfs.lines), Stamps(Absent(before, OUR_PARAMS[j + 1..]), env.clock);
        StampsSplit(before, OUR_PARAMS[j..], env.clock);
        if param in missing {
          AppendLine(OurParamString(param, env.clock));
          assert now + ([OurParamString(param, env.clock)] + rest) == Contents(cfs.lines) + rest;
        } else {
          assert [] + rest == rest;
        }
      }
      assert Stamps(Absent(before, OUR_PARAMS[|OUR_PARAMS|..]), env.clock) == [];
    }

    // -------------------------------------------------------------- quiet mode and the whole run

    /** Like Reached, once the counting writer is put away. */
    predicate Ended(step: Step, err: Option<Reason>)
      reads this, cfs
    {
      Contents(cfs.lines) == step.State().lines && input == step.State().input &&
      err == if step.Halt? then Some(step.why) else None
    }

    /** The first part of processQuiet: the shared-library line is put in order without asking. */
    method ProcessSharedLibLineQuietly()
      requires Valid() && flags.quiet && Writes() == 0
      modifies cfs`lines, cfs`sharedLibResult, counter
      ensures Valid() && OnlyNewLines()
      ensures var lines := SetShared(old(Contents(cfs.lines)), old(cfs.sharedLibResult));
              Contents(cfs.lines) == lines && Writes() == if lines == old(Contents(cfs.lines)) then 0 else 1
    {
      hide ParseLine;
      hide UpdateLine;
      hide Contents;
      ghost var before := Contents(cfs.lines);
      if cfs.sharedLibResult.None? {
        Fprintf();
        AppendLine(PLAIN_SHARED_LINE);
        PlainLineIsShared();
        cfs.sharedLibResult := Some(ParseLine(PLAIN_SHARED_LINE_WITH_COMMENTS).value.(idx := |cfs.lines| - 1));
      } else {
        var idx := cfs.sharedLibResult.value.idx;
        var newLine := UpdateLine(cfs.lines[idx].content, cfs.sharedLibResult.value);
        assert before[idx := newLine] == before <==> newLine == before[idx];
        if newLine != cfs.lines[idx].content {
          Fprintf();
          ReplaceLine(idx, newLine);
        }
      }
    }

    /** The question of processQuiet, after our own parameters have been printed. */
    method ConfirmQuietly() returns (err: Option<Reason>)
      requires Valid() && flags.quiet
      modifies this`input, counter
      ensures Valid()
      ensures var (a, rest) := Ask(flags, old(input), YesNo);
              input == rest && err == if a == Yes then None else Some(Refusal(a))
    {
      for i := 0 to |OUR_PARAMS|
        invariant Valid() && input == old(input)
      {
        Fprintf();
      }
      var a := PromptUntilValidInput(YesNo);
      err := if a == Yes then None else Some(Refusal(a));
    }

    /** processQuiet */
    method ProcessQuiet(c: SystemConfig, p: Profile) returns (err: Option<Reason>)
      requires cfs.Valid() && counter == null && flags.quiet && AllSafe(Groups(c, p, env.linux))
      modifies this`input, this`counter, cfs`lines, cfs`sharedLibResult
      ensures cfs.Valid() && OnlyNewLines()
      ensures Ended(QuietStep(Groups(c, p, env.linux), old(cfs.sharedLibResult), cfs.tuneParseResults, env, flags, old(Now())), err)
    {
      hide Groups;
      hide AllSafe;
      hide TunablesStep;
      hide SetShared;
      hide Contents;
      hide Ask;
      hide InRange;
      hide DistinctLines;
      hide NoneRemoved;
      var newWriter := new CounterWriter();
      counter := newWriter;
      ProcessSharedLibLineQuietly();
      err := ProcessTunables(c, p);
      if err.None? && newWriter.count > 0 {
        err := ConfirmQuietly();
      }
      counter := null;
    }

    /** The other branch of Run: refusing to tune is no error. */
    method ProcessInteractively(c: SystemConfig, p: Profile) returns (err: Option<Reason>)
      requires Valid() && counter == null && !flags.quiet && AllSafe(Groups(c, p, env.linux))
      modifies this`input, cfs`lines
      ensures Valid() && counter == null && OnlyNewLines()
      ensures Ended(InteractiveStep(Groups(c, p, env.linux), cfs.sharedLibResult, cfs.tuneParseResults, env, flags, old(Now())), err)
    {
      hide Groups;
      hide AllSafe;
      hide TunablesStep;
      hide SetShared;
      hide Contents;
      hide Ask;
      hide InRange;
      hide DistinctLines;
      hide NoneRemoved;
      err := ProcessSharedLibLine();
      if err.None? {
        var a := PromptUntilValidInput(YesNo);
        if a == Yes {
          err := ProcessTunables(c, p);
        } else if a != No {
          err := Some(Refusal(a));
        }
      }
    }
  }

  /** The end of Run: our parameters stamped, their duplicates marked, and the lines written. */
  method FinishRun(t: Tuner) returns (text: string)
    requires t.cfs.Valid()
    modifies t.cfs`lines, t.cfs.lines
    ensures text == WriteText(Finish(old(Contents(t.cfs.lines)), t.env.clock))
  {
    hide StampStep;
    hide Marked;
    hide Superseded;
    hide QuotedRegexes;
    t.ProcessOurParams();
    ghost var stamped := Contents(t.cfs.lines);
    var ps := GetRemoveDuplicatesProcessors(OUR_PARAMS);
    t.cfs.ProcessLines(ps);
    forall a | 0 <= a < |stamped| ensures Removals(t.cfs.lines)[a] == Superseded(stamped, a) {
      MarkedIsSuperseded(stamped, a);
    }
    assert Removals(t.cfs.lines) == Tuning.Marks(stamped);
    text := t.cfs.WriteTo();
  }

  /** Run, from the text of the file to the text written in its place. */
  method Run(text: string, c: SystemConfig, p: Profile, env: Env, flags: Flags, input: string) returns (r: RunResult)
    requires AllSafe(Groups(c, p, env.linux))
    ensures r == RunText(text, c, p, env, flags, input)
  {
    hide AllSafe;
    hide Groups;
    hide FindShared;
    hide TuneIndex;
    hide ScanLines;
    hide WriteText;
    hide Finish;
    hide TunablesStep;
    hide SetShared;
    hide Ask;
    hide Contents;
    var cfs := GetConfigFileState(text);
    var t := new Tuner(cfs, flags, env, input);
    var err: Option<Reason>;
    if flags.quiet {
      err := t.ProcessQuiet(c, p);
    } else {
      err := t.ProcessInteractively(c, p);
    }
    if err.Some? {
      return Error(err.value);
    }
    hide QuietStep;
    hide InteractiveStep;
    var out := FinishRun(t);
    return Output(out);
  }

  lemma RewrittenStep(g: SettingsGroup, keys: seq<string>, i: nat, tune: map<string, ParseResult>, numeric: string -> Option<Float>)
    requires Safe(g.recommender) && i < |keys|
    ensures var rest := Rewritten(g, keys[i + 1..], tune, numeric);
            Rewritten(g, keys[i..], tune, numeric) ==
            if DecideIn(g, tune, numeric, keys[i]) == Show && Recommend(g.recommender, keys[i]) != NO_RECOMMENDATION
            then [keys[i]] + rest else rest
  {
    hide Recommend;
    hide DecideIn;
    assert keys[i..][0] == keys[i] && keys[i..][1..] == keys[i + 1..];
  }

  lemma SetKeysStep(lines: seq<string>, g: SettingsGroup, k: string, rest: seq<string>, tune: map<string, ParseResult>)
    requires Safe(g.recommender) && InRange(tune, lines)
    ensures SetKeys(lines, g, [k] + rest, tune) == SetKeys(SetKey(lines, k, Lookup(tune, k), Recommend(g.recommender, k)), g, rest, tune)
  {
    hide Recommend;
    hide SetKey;
    assert ([k] + rest)[1..] == rest;
  }

  lemma NoKeysLeft(g: SettingsGroup, keys: seq<string>, tune: map<string, ParseResult>, numeric: string -> Option<Float>)
    requires Safe(g.recommender)
    ensures Rewritten(g, keys[|keys|..], tune, numeric) == []
  {
  }

  lemma NothingRewritten(lines: seq<string>, g: SettingsGroup, keys: seq<string>, tune: map<string, ParseResult>, numeric: string -> Option<Float>)
    requires Safe(g.recommender) && InRange(tune, lines)
    ensures Rewritten(g, keys[|keys|..], tune, numeric) == [] && SetKeys(lines, g, [], tune) == lines
  {
  }

  /** From line `i` on: a parameter is found at its last line, or still missing and nowhere there. */
  predicate Searched(contents: seq<string>, found: map<string, nat>, missing: set<string>, p: string, i: nat) {
    if p in missing then p !in found && forall j :: i <= j < |contents| ==> !ParamLines(p)(contents[j])
    else p in found && Last(contents, ParamLines(p)) == Some(found[p])
  }

  lemma NothingSearched(contents: seq<string>, missing: set<string>)
    ensures forall p :: p in missing ==> Searched(contents, map[], missing, p, |contents|)
  {
  }

  lemma NotMissingStays(contents: seq<string>, found: map<string, nat>, missing: set<string>, i: nat)
    ensures forall p :: p !in missing && Searched(contents, found, missing, p, i + 1) ==> Searched(contents, found, missing, p, i)
  {
    hide ParamLines;
  }

  /** One parameter tried on one line; the others are not affected. */
  lemma SearchStep(contents: seq<string>, found: map<string, nat>, missing: set<string>, param: string, i: nat)
    requires i < |contents| && param in missing && Searched(contents, found, missing, param, i + 1)
    ensures if ParseWithRegex(contents[i], KeyToRegexQuoted(param)).Some?
            then Searched(contents, found[param := i], missing - {param}, param, i) &&
                 (forall p, k :: p != param && Searched(contents, found, missing, p, k) ==>
                    Searched(contents, found[param := i], missing - {param}, p, k))
            else Searched(contents, found, missing, param, i)
  {
    hide ParseWithRegex;
    assert ParamLines(param)(contents[i]) == ParseWithRegex(contents[i], KeyToRegexQuoted(param)).Some?;
    if ParamLines(param)(contents[i]) {
      LastIs(contents, ParamLines(param), i);
    }
    hide ParamLines;
    hide Last;
  }

  lemma SearchedAll(contents: seq<string>, found: map<string, nat>, missing: set<string>, p: string, i: nat)
    requires Searched(contents, found, missing, p, i) && (i == 0 || missing == {})
    ensures match Last(contents, ParamLines(p))
            case Some(j) => p in found && found[p] == j && p !in missing
            case None => p !in found && p in missing
  {
    hide ParamLines;
    if p in missing {
      LastIsNone(contents, ParamLines(p));
    }
  }

  /** `cur` is `before` stamped, but for the parameters of `todo`. */
  predicate PartlyStamped(before: seq<string>, todo: set<string>, clock: string, cur: seq<string>) {
    |cur| == |before| &&
    forall i :: 0 <= i < |before| ==>
      cur[i] == match OwnerOf(before, i)
                case Some(p) => if p in todo then before[i] else OurParamString(p, clock)
                case None => before[i]
  }

  lemma NothingStamped(before: seq<string>, todo: set<string>, clock: string)
    requires forall p :: p in OUR_PARAMS && Last(before, ParamLines(p)).Some? ==> p in todo
    ensures PartlyStamped(before, todo, clock, before)
  {
    hide ParamLines;
    hide Last;
    hide OurParamString;
  }

  lemma AllStamped(before: seq<string>, clock: string, cur: seq<string>)
    requires PartlyStamped(before, {}, clock, cur)
    ensures cur == Restamp(before, clock)
  {
    hide OwnerOf;
    hide OurParamString;
  }

  lemma OneStamped(before: seq<string>, todo: set<string>, clock: string, cur: seq<string>, param: string, idx: nat)
    requires PartlyStamped(before, todo, clock, cur) && param in todo && param in OUR_PARAMS
    requires Last(before, ParamLines(param)) == Some(idx)
    ensures idx < |cur| && PartlyStamped(before, todo - {param}, clock, cur[idx := OurParamString(param, clock)])
  {
    hide ParamLines;
    hide Last;
    hide OurParamString;
    OwnerIs(before, param, idx);
  }

  lemma StampsSplit(lines: seq<string>, params: seq<string>, clock: string)
    requires |params| > 0
    ensures Stamps(Absent(lines, params), clock) ==
            (if Last(lines, ParamLines(params[0])).None? then [OurParamString(params[0], clock)] else []) +
            Stamps(Absent(lines, params[1..]), clock)
  {
    hide Last;
    hide ParamLines;
    var first := if Last(lines, ParamLines(params[0])).None? then [params[0]] else [];
    StampsJoin(first, Absent(lines, params[1..]), clock);
    hide Absent;
    StampsOfOne(params[0], clock);
    hide Stamps;
  }

  lemma StampsJoin(a: seq<string>, b: seq<string>, clock: string)
    ensures Stamps(a + b, clock) == Stamps(a, clock) + Stamps(b, clock)
  {
    hide OurParamString;
  }

  lemma StampsOfOne(param: string, clock: string)
    ensures Stamps([], clock) == [] && Stamps([param], clock) == [OurParamString(param, clock)]
  {
    hide OurParamString;
  }
}
