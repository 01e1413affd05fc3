/** All the groups together: after an accepted run every recommendation is in effect, and stays so. */
module Settling {
  import opened Text
  import opened Lines
  import opened Changes
  import opened TuneSettings
  import opened LineGrammar
  import opened PgTune
  import opened Tuning
  import opened Recommendations
  import opened StaleIndex
  import opened Acceptance
  import PgTime

  function KeysOf(groups: seq<SettingsGroup>): seq<string> {
    if |groups| == 0 then [] else groups[0].keys + KeysOf(groups[1..])
  }

  /** No parameter belongs to two groups, or to one of them twice. */
  ghost predicate GoodGroups(groups: seq<SettingsGroup>) {
    Distinct(KeysOf(groups)) && Known(KeysOf(groups))
  }

  predicate Apart(a: seq<string>, b: seq<string>) {
    forall i, j :: 0 <= i < |a| && 0 <= j < |b| ==> a[i] != b[j]
  }

  lemma {:induction false} GoodSplit(groups: seq<SettingsGroup>, w: map<string, string>)
    requires |groups| > 0 && GoodGroups(groups) && Fresh(KeysOf(groups), w)
    ensures GoodKeys(groups[0]) && Fresh(groups[0].keys, w)
    ensures GoodGroups(groups[1..]) && Fresh(KeysOf(groups[1..]), w)
    ensures Apart(groups[0].keys, KeysOf(groups[1..]))
  {
    hide ALL_KEYS;
    var a, b := groups[0].keys, KeysOf(groups[1..]);
    var all := KeysOf(groups);
    assert all == a + b;
    assert forall i :: 0 <= i < |a| ==> all[i] == a[i];
    assert forall i :: 0 <= i < |b| ==> all[|a| + i] == b[i];
    assert Apart(a, b);
    assert forall i :: 0 <= i < |b| ==> b[i] !in w && b[i] !in a;
  }

  lemma {:induction false} GoodMember(groups: seq<SettingsGroup>, g: SettingsGroup)
    requires GoodGroups(groups) && g in groups
    ensures GoodKeys(g) && forall k :: k in g.keys ==> k in KeysOf(groups)
  {
    hide ALL_KEYS;
    GoodSplit(groups, map[]);
    if g != groups[0] {
      hide GoodGroups;
      GoodMember(groups[1..], g);
    }
  }

  /** A parameter determines its group. */
  lemma {:induction false} OneGroup(groups: seq<SettingsGroup>, g1: SettingsGroup, g2: SettingsGroup, k: string)
    requires GoodGroups(groups) && g1 in groups && g2 in groups && k in g1.keys && k in g2.keys
    ensures g1 == g2
  {
    hide ALL_KEYS;
    GoodSplit(groups, map[]);
    hide GoodGroups;
    if g1 in groups[1..] {
      GoodMember(groups[1..], g1);
    }
    if g2 in groups[1..] {
      GoodMember(groups[1..], g2);
    }
    if g1 in groups[1..] && g2 in groups[1..] {
      OneGroup(groups[1..], g1, g2, k);
    }
  }

  // ---------------------------------------------------------------- the groups a run rewrites

  /** The groups with something to show whose question, if one is asked, is answered with yes. */
  ghost function AcceptedGroups(groups: seq<SettingsGroup>, tune: map<string, ParseResult>, env: Env, f: Flags, input: string): (r: seq<SettingsGroup>)
    requires AllSafe(groups)
    ensures forall g :: g in r ==> g in groups && IsAvailable(g.recommender)
    decreases groups
  {
    if |groups| == 0 then []
    else
      var g, rest := groups[0], groups[1..];
      if !IsAvailable(g.recommender) then AcceptedGroups(rest, tune, env, f, input)
      else if SomeFail(g, tune, env.numeric) then []
      else if !SomeShown(g, tune, env.numeric) then AcceptedGroups(rest, tune, env, f, input)
      else if f.quiet then [g] + AcceptedGroups(rest, tune, env, f, input)
      else
        var (a, unread) := Ask(f, input, SkipQuit);
        if a == Yes then [g] + AcceptedGroups(rest, tune, env, f, unread)
        else if a == Skip then AcceptedGroups(rest, tune, env, f, unread)
        else []
  }

  ghost predicate AllPanicFree(groups: seq<SettingsGroup>) {
    forall g :: g in groups ==> Safe(g.recommender)
  }

  /** All that the groups of `accepted` write. */
  ghost function Settings(accepted: seq<SettingsGroup>, tune: map<string, ParseResult>, numeric: string -> Option<Float>): map<string, string>
    requires AllPanicFree(accepted)
    decreases accepted
  {
    if |accepted| == 0 then map[]
    else Proposals(accepted[0], tune, numeric) + Settings(accepted[1..], tune, numeric)
  }

  lemma AcceptedAreSafe(groups: seq<SettingsGroup>, tune: map<string, ParseResult>, env: Env, f: Flags, input: string)
    requires AllSafe(groups)
    ensures AllPanicFree(AcceptedGroups(groups, tune, env, f, input))
  {
    hide Safe;
    hide AcceptedGroups;
  }

  /** One of the groups proposes the setting. */
  ghost predicate ProposedBy(groups: seq<SettingsGroup>, tune: map<string, ParseResult>, numeric: string -> Option<Float>, k: string)
    requires AllPanicFree(groups)
  {
    exists g :: g in groups && Proposed(g, tune, numeric, k)
  }

  lemma ProposedByOneMore(groups: seq<SettingsGroup>, tune: map<string, ParseResult>, numeric: string -> Option<Float>, k: string)
    requires |groups| > 0 && AllPanicFree(groups)
    ensures AllPanicFree(groups[1..])
    ensures ProposedBy(groups, tune, numeric, k) <==> Proposed(groups[0], tune, numeric, k) || ProposedBy(groups[1..], tune, numeric, k)
  {
    hide Proposed;
    hide Safe;
    assert groups == [groups[0]] + groups[1..];
    if ProposedBy(groups[1..], tune, numeric, k) {
      var g :| g in groups[1..] && Proposed(g, tune, numeric, k);
      assert g in groups;
    }
    if Proposed(groups[0], tune, numeric, k) {
      assert groups[0] in groups;
    }
  }

  /** The parameters written are the proposed ones of the accepted groups, with what those recommend. */
  lemma {:induction false} SettingsIff(groups: seq<SettingsGroup>, accepted: seq<SettingsGroup>, lines: seq<string>,
                                       numeric: string -> Option<Float>, k: string)
    requires GoodGroups(groups) && AllPanicFree(accepted) && forall g :: g in accepted ==> g in groups
    ensures var w := Settings(accepted, TuneIndex(lines), numeric);
            && (k in w <==> ProposedBy(accepted, TuneIndex(lines), numeric, k))
            && (forall g :: g in accepted && Proposed(g, TuneIndex(lines), numeric, k) ==> k in w && w[k] == Recommend(g.recommender, k))
    decreases accepted
  {
    hide Recommend;
    hide DecideIn;
    hide TuneIndex;
    hide Safe;
    hide GoodGroups;
    hide GoodKeys;
    if |accepted| == 0 {
      hide Proposed;
    } else {
      var g0, rest := accepted[0], accepted[1..];
      var tune := TuneIndex(lines);
      GoodMember(groups, g0);
      ProposalsIff(g0, lines, numeric);
      hide Proposals;
      ProposedByOneMore(accepted, tune, numeric, k);
      SettingsIff(groups, rest, lines, numeric, k);
      forall g | g in accepted && Proposed(g, tune, numeric, k)
        ensures (g == g0 || g in rest) && (Proposed(g0, tune, numeric, k) ==> g == g0)
      {
        if Proposed(g0, tune, numeric, k) {
          OneGroup(groups, g, g0, k);
        }
      }
      forall g | g in rest && Proposed(g, tune, numeric, k) ensures Proposed(g0, tune, numeric, k) ==> g == g0 {
        assert g in accepted;
      }
      hide Proposed;
      hide ProposedBy;
    }
  }

  /** One group more: what it contributes to the accepted ones, and what is left of the input. */
  lemma AcceptedSplit(groups: seq<SettingsGroup>, tune: map<string, ParseResult>, env: Env, f: Flags, s: Session)
    requires |groups| > 0 && AllSafe(groups) && IsAvailable(groups[0].recommender) && InRange(tune, s.lines)
    ensures AllSafe(groups[1..])
    ensures var r := GroupStep(groups[0], tune, env, f, s);
            AcceptedGroups(groups, tune, env, f, s.input) ==
            (if Accepts(groups[0], tune, env, f, s.input) then [groups[0]] else []) +
            (if r.Go? then AcceptedGroups(groups[1..], tune, env, f, r.s.input) else [])
  {
    hide Safe;
    hide SomeFail;
    hide SomeShown;
    hide Ask;
    hide Rewritten;
    hide SetKeys;
    hide InRange;
  }

  lemma SettingsOfOneMore(g: SettingsGroup, rest: seq<SettingsGroup>, w: map<string, string>,
                                             tune: map<string, ParseResult>, numeric: string -> Option<Float>)
    requires Safe(g.recommender) && AllPanicFree(rest)
    ensures AllPanicFree([g] + rest)
    ensures w + Settings([g] + rest, tune, numeric) == (w + Proposals(g, tune, numeric)) + Settings(rest, tune, numeric)
  {
    hide Safe;
    hide Proposals;
    assert ([g] + rest)[1..] == rest;
    hide Settings;
    MapsAssociate(w, Proposals(g, tune, numeric), Settings(rest, tune, numeric));
  }

  lemma MapsAssociate(a: map<string, string>, b: map<string, string>, c: map<string, string>)
    ensures a + (b + c) == (a + b) + c
  {
  }

  lemma NoSettings(w: map<string, string>, tune: map<string, ParseResult>, numeric: string -> Option<Float>)
    ensures w + Settings([], tune, numeric) == w
  {
  }

  lemma StillFresh(keys: seq<string>, w: map<string, string>, g: SettingsGroup, lines: seq<string>, numeric: string -> Option<Float>)
    requires Safe(g.recommender) && GoodKeys(g) && Fresh(keys, w) && Apart(g.keys, keys)
    ensures Fresh(keys, w + Proposals(g, TuneIndex(lines), numeric))
  {
    hide Recommend;
    hide DecideIn;
    hide TuneIndex;
    hide Safe;
    ProposalsIff(g, lines, numeric);
    hide Proposals;
    hide GoodKeys;
  }

  /** processTunables through a stale index: exactly the settings of the accepted groups are written, each one change. */
  lemma {:induction false} TunablesKeep(lines: seq<string>, base: seq<string>, w: map<string, string>, groups: seq<SettingsGroup>,
                                        env: Env, f: Flags, s: Session)
    requires AllSafe(groups) && InRange(TuneIndex(lines), s.lines) && GoodGroups(groups) && Fresh(KeysOf(groups), w)
    requires Kept(lines, base, s.lines, w) && SameAt(lines, base)
    ensures var tune := TuneIndex(lines);
            var accepted := AcceptedGroups(groups, tune, env, f, s.input);
            var r := TunablesStep(groups, tune, env, f, s);
            AllPanicFree(accepted) &&
            var w' := w + Settings(accepted, tune, env.numeric);
            Kept(lines, base, r.State().lines, w') && (f.quiet ==> r.State().writes == s.writes + |w'| - |w|)
    decreases groups
  {
    hide Kept;
    hide SameAt;
    hide TuneIndex;
    hide Fresh;
    hide GoodKeys;
    hide GoodGroups;
    hide GroupStep;
    hide Safe;
    hide Apart;
    hide Proposals;
    hide Accepts;
    hide SomeFail;
    hide SomeShown;
    var tune := TuneIndex(lines);
    AcceptedAreSafe(groups, tune, env, f, s.input);
    NoSettings(w, tune, env.numeric);
    if |groups| > 0 {
      var g, rest := groups[0], groups[1..];
      GoodSplit(groups, w);
      if !IsAvailable(g.recommender) {
        TunablesKeep(lines, base, w, rest, env, f, s);
      } else {
        GroupKeeps(lines, base, w, g, env, f, s);
        AcceptedSplit(groups, tune, env, f, s);
        StillFresh(KeysOf(rest), w, g, lines, env.numeric);
        WithNothing(w);
        var r := GroupStep(g, tune, env, f, s);
        var more := if r.Go? then AcceptedGroups(rest, tune, env, f, r.s.input) else [];
        hide KeysOf;
        if r.Go? {
          AcceptedAreSafe(rest, tune, env, f, r.s.input);
          var w1 := if Accepts(g, tune, env, f, s.input) then w + Proposals(g, tune, env.numeric) else w;
          TunablesKeep(lines, base, w1, rest, env, f, r.s);
        }
        NoSettings(w + Proposals(g, tune, env.numeric), tune, env.numeric);
        SettingsOfOneMore(g, more, w, tune, env.numeric);
        hide AcceptedGroups;
        hide Settings;
        EmptyFirst([g], more);
      }
    }
  }

  lemma EmptyFirst(a: seq<SettingsGroup>, b: seq<SettingsGroup>)
    ensures [] + b == b && a + [] == a
  {
  }

  /** The group passed its check, and was accepted if there was anything to show. */
  ghost predicate Passed(g: SettingsGroup, tune: map<string, ParseResult>, numeric: string -> Option<Float>, accepted: seq<SettingsGroup>)
    requires Safe(g.recommender)
  {
    !SomeFail(g, tune, numeric) && (SomeShown(g, tune, numeric) ==> g in accepted)
  }

  // ---------------------------------------------------------------- every recommendation in effect

  /** Looking at `lines` afresh, no recommended setting is missing, commented or off. */
  ghost predicate Settled(groups: seq<SettingsGroup>, lines: seq<string>, numeric: string -> Option<Float>)
    requires AllSafe(groups)
  {
    forall g, i :: g in groups && IsAvailable(g.recommender) && 0 <= i < |g.keys| ==>
      Recommend(g.recommender, g.keys[i]) != NO_RECOMMENDATION ==>
      DecideIn(g, TuneIndex(lines), numeric, g.keys[i]) == Keep
  }

  /** A written setting, read back, is kept. */
  lemma SetIsKept(base: seq<string>, cur: seq<string>, w: map<string, string>, g: SettingsGroup, k: string,
                                     numeric: string -> Option<Float>)
    requires Safe(g.recommender) && Tracks(base, cur, w) && k in w && w[k] == Recommend(g.recommender, k)
    ensures DecideIn(g, TuneIndex(cur), numeric, k) == Keep
  {
    hide FindKey;
    hide FindShared;
    hide Recommend;
    hide ParseFloat;
    hide CloseEnough;
    hide TuneIndex;
    hide Lookup;
    assert k in ALL_KEYS;
    LookupIndex(cur, k);
  }

  /** Every recommendation of a group that passed is in effect on the lines left. */
  lemma PassedSettles(lines: seq<string>, base: seq<string>, cur: seq<string>, groups: seq<SettingsGroup>,
                                         accepted: seq<SettingsGroup>, g: SettingsGroup, k: string, numeric: string -> Option<Float>)
    requires GoodGroups(groups) && AllPanicFree(accepted) && forall h :: h in accepted ==> h in groups
    requires Kept(lines, base, cur, Settings(accepted, TuneIndex(lines), numeric)) && Agree(lines, base)
    requires g in groups && Safe(g.recommender) && Passed(g, TuneIndex(lines), numeric, accepted)
    requires k in g.keys && Recommend(g.recommender, k) != NO_RECOMMENDATION
    ensures DecideIn(g, TuneIndex(cur), numeric, k) == Keep
  {
    hide FindKey;
    hide FindShared;
    hide Recommend;
    hide Decide;
    hide TuneIndex;
    hide Lookup;
    hide Settings;
    hide GoodGroups;
    hide SameAt;
    hide Wrote;
    hide ALL_KEYS;
    GoodMember(groups, g);
    SettingsIff(groups, accepted, lines, numeric, k);
    var w := Settings(accepted, TuneIndex(lines), numeric);
    assert Tracks(base, cur, w);
    if k in w {
      ProposerIs(groups, accepted, g, TuneIndex(lines), numeric, k);
      SetIsKept(base, cur, w, g, k, numeric);
    } else {
      assert k in ALL_KEYS;
      LookupIndex(lines, k);
      LookupIndex(cur, k);
      hide Tracks;
      NotProposed(accepted, g, TuneIndex(lines), numeric, k);
    }
  }

  lemma NotProposed(accepted: seq<SettingsGroup>, g: SettingsGroup, tune: map<string, ParseResult>,
                                       numeric: string -> Option<Float>, k: string)
    requires AllPanicFree(accepted) && Safe(g.recommender) && !ProposedBy(accepted, tune, numeric, k)
    ensures Proposed(g, tune, numeric, k) ==> g !in accepted
  {
    hide Proposed;
    hide Safe;
  }

  lemma ProposerIs(groups: seq<SettingsGroup>, accepted: seq<SettingsGroup>, g: SettingsGroup, tune: map<string, ParseResult>,
                                      numeric: string -> Option<Float>, k: string)
    requires GoodGroups(groups) && AllPanicFree(accepted) && (forall h :: h in accepted ==> h in groups) && g in groups && k in g.keys
    requires ProposedBy(accepted, tune, numeric, k)
    ensures g in accepted && Proposed(g, tune, numeric, k)
  {
    hide Recommend;
    hide DecideIn;
    hide Safe;
    hide GoodGroups;
    var h :| h in accepted && Proposed(h, tune, numeric, k);
    OneGroup(groups, g, h, k);
  }

  /** What being kept means: active, and the recommendation itself or within 5% of it. */
  predicate InEffect(r: ParseResult, rec: string, parser: FloatParser, numeric: string -> Option<Float>, key: string) {
    !r.commented &&
    (r.value == rec ||
     (ParseFloat(parser, numeric, key, r.value).Some? && ParseFloat(parser, numeric, key, rec).Some? &&
      CloseEnough(ParseFloat(parser, numeric, key, r.value).value, ParseFloat(parser, numeric, key, rec).value)))
  }

  lemma KeptIff(found: Option<ParseResult>, rec: string, parser: FloatParser, numeric: string -> Option<Float>, key: string)
    requires rec != NO_RECOMMENDATION
    ensures Decide(found, rec, parser, numeric, key) == Keep <==>
            found.Some? && InEffect(found.value, rec, parser, numeric, key)
  {
  }

  /** The check stops with an error exactly when a present value reads as a number and the recommendation does not. */
  lemma FailsIff(found: Option<ParseResult>, rec: string, parser: FloatParser, numeric: string -> Option<Float>, key: string)
    ensures Decide(found, rec, parser, numeric, key) == Fail <==>
            found.Some? && rec != NO_RECOMMENDATION && (found.value.commented || found.value.value != rec) &&
            ParseFloat(parser, numeric, key, found.value.value).Some? && ParseFloat(parser, numeric, key, rec).None?
  {
  }

  // ---------------------------------------------------------------- nothing left to do

  lemma SettledGroup(groups: seq<SettingsGroup>, g: SettingsGroup, lines: seq<string>, numeric: string -> Option<Float>)
    requires AllSafe(groups) && Settled(groups, lines, numeric) && g in groups && IsAvailable(g.recommender)
    ensures Rewritten(g, g.keys, TuneIndex(lines), numeric) == [] && !SomeFail(g, TuneIndex(lines), numeric)
  {
    hide Recommend;
    hide DecideIn;
    hide TuneIndex;
    forall i | 0 <= i < |g.keys| && Recommend(g.recommender, g.keys[i]) == NO_RECOMMENDATION
      ensures DecideIn(g, TuneIndex(lines), numeric, g.keys[i]) != Fail
    {
      NoRecommendationNeverFails(g, TuneIndex(lines), numeric, g.keys[i]);
    }
    NothingToRewrite(g, g.keys, lines, numeric);
  }

  lemma NoRecommendationNeverFails(g: SettingsGroup, tune: map<string, ParseResult>, numeric: string -> Option<Float>, k: string)
    requires Guard(g.recommender, k) && Recommend(g.recommender, k) == NO_RECOMMENDATION
    ensures DecideIn(g, tune, numeric, k) != Fail
  {
    hide Recommend;
  }

  lemma {:induction false} NothingToRewrite(g: SettingsGroup, keys: seq<string>, lines: seq<string>, numeric: string -> Option<Float>)
    requires Safe(g.recommender)
    requires forall i :: 0 <= i < |keys| && Recommend(g.recommender, keys[i]) != NO_RECOMMENDATION ==>
               DecideIn(g, TuneIndex(lines), numeric, keys[i]) == Keep
    ensures Rewritten(g, keys, TuneIndex(lines), numeric) == []
    decreases keys
  {
    hide Recommend;
    hide DecideIn;
    hide TuneIndex;
    if |keys| > 0 {
      NothingToRewrite(g, keys[1..], lines, numeric);
    }
  }

  /** On settled lines the groups change nothing, count nothing, and stop only if the user says so. */
  lemma {:induction false} SettledUnchanged(groups: seq<SettingsGroup>, done: seq<SettingsGroup>, env: Env, f: Flags, s: Session)
    requires AllSafe(groups) && AllSafe(done + groups) && Settled(done + groups, s.lines, env.numeric)
    ensures InRange(TuneIndex(s.lines), s.lines)
    ensures var r := TunablesStep(groups, TuneIndex(s.lines), env, f, s);
            && r.State().lines == s.lines && r.State().writes == s.writes
            && (r.Halt? ==> !f.quiet && !f.yesAlways && r.why != ParseProblem)
            && (f.quiet || f.yesAlways ==> r.State().input == s.input)
    decreases groups
  {
    hide TuneIndex;
    hide Settled;
    hide Safe;
    hide AskInput;
    hide SomeFail;
    hide SomeShown;
    hide Rewritten;
    IndexInRange(s.lines);
    if |groups| > 0 {
      var g := groups[0];
      assert g in done + groups;
      assert done + groups == (done + [g]) + groups[1..];
      if IsAvailable(g.recommender) {
        SettledGroup(done + groups, g, s.lines, env.numeric);
        var r := GroupStep(g, TuneIndex(s.lines), env, f, s);
        if r.Go? {
          SettledUnchanged(groups[1..], done + [g], env, f, r.s);
        }
      } else {
        SettledUnchanged(groups[1..], done + [g], env, f, s);
      }
    }
  }
}
