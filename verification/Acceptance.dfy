/** Groups of settings: what a step of the run does to the lines, and when nothing is left to do. */
module Acceptance {
  import opened Text
  import opened Lines
  import opened Changes
  import opened TuneSettings
  import opened LineGrammar
  import opened SharedPreloadLibs
  import opened PgTune
  import opened Tuning
  import opened Recommendations
  import opened StaleIndex

  predicate Distinct(keys: seq<string>) {
    forall i, j :: 0 <= i < j < |keys| ==> keys[i] != keys[j]
  }

  predicate Known(keys: seq<string>) {
    forall i :: 0 <= i < |keys| ==> keys[i] in ALL_KEYS
  }

  /** No key of `keys` has been rewritten yet. */
  predicate Fresh(keys: seq<string>, w: map<string, string>) {
    forall i :: 0 <= i < |keys| ==> keys[i] !in w
  }

  /** The line of every parameter of `lines` is in its place in `base`. */
  ghost predicate SameAt(lines: seq<string>, base: seq<string>) {
    |lines| <= |base| &&
    forall k :: k in ALL_KEYS && FindKey(lines, k).Some? ==> base[FindKey(lines, k).value.idx] == lines[FindKey(lines, k).value.idx]
  }

  /** And it is the line of that parameter there too, as far as there is one. */
  ghost predicate Agree(lines: seq<string>, base: seq<string>) {
    SameAt(lines, base) && forall k :: k in ALL_KEYS ==> FindKey(base, k) == FindKey(lines, k)
  }

  lemma LookupIndex(lines: seq<string>, k: string)
    requires k in ALL_KEYS
    ensures Lookup(TuneIndex(lines), k) == FindKey(lines, k)
  {
    hide FindKey;
    hide ALL_KEYS;
  }

  // ---------------------------------------------------------------- what is on which line

  /** `line` is what is appended for a parameter of `w` that has no line. */
  ghost predicate Appended(lines: seq<string>, w: map<string, string>, line: string) {
    exists k :: k in w && FindKey(lines, k).None? && line == TunableLine(k, w[k], "")
  }

  /**
    `cur` is `base` with the parameters of `w` printed over the lines the index of `lines` gives them,
    or after the end, and nothing else; every one of them is one change.
   */
  ghost predicate Wrote(lines: seq<string>, base: seq<string>, cur: seq<string>, w: map<string, string>) {
    && |lines| <= |base| <= |cur|
    && w.Keys <= ALL_KEYS
    && (forall k :: k in w && FindKey(lines, k).Some? ==>
          cur[FindKey(lines, k).value.idx] == TunableLine(k, w[k], FindKey(lines, k).value.extra))
    && (forall j :: 0 <= j < |base| && cur[j] != base[j] ==> Assigned(lines, w, j))
    && (forall j :: |base| <= j < |cur| ==> Appended(lines, w, cur[j]))
    && Changed(lines, cur) == Changed(lines, base) + |w|
  }

  /** What every step keeps, for the lines as scanned, after the shared-library phase, and now. */
  ghost predicate Kept(lines: seq<string>, base: seq<string>, cur: seq<string>, w: map<string, string>) {
    && Wrote(lines, base, cur, w)
    && (Agree(lines, base) ==> Tracks(base, cur, w))
    && (AllClean(lines) && AllClean(base) ==> AllClean(cur))
  }

  lemma KeptAtFirst(lines: seq<string>, base: seq<string>)
    requires |lines| <= |base|
    ensures Kept(lines, base, base, map[])
  {
    hide FindKey;
    hide Changed;
    hide Tracks;
    TracksItself(base);
  }

  lemma FindKeyInRange(lines: seq<string>, k: string)
    ensures FindKey(lines, k).Some? ==> FindKey(lines, k).value.idx < |lines|
  {
  }

  /** Two parameters never have the same line. */
  lemma OwnLine(lines: seq<string>, k1: string, k2: string)
    requires k1 in ALL_KEYS && k2 in ALL_KEYS && FindKey(lines, k1).Some? && FindKey(lines, k2).Some?
    requires FindKey(lines, k1).value.idx == FindKey(lines, k2).value.idx
    ensures k1 == k2
  {
    hide FindKey;
    hide MatchesKey;
    hide ParseKey;
    hide KeyLike;
    NamesAreKeyLike();
    FindKeyFacts(lines, k1);
    FindKeyFacts(lines, k2);
    hide ALL_KEYS;
    MatchesOne(lines[FindKey(lines, k1).value.idx], k1, k2);
  }

  /** A line the index has not given away is still what it was. */
  lemma Untouched(lines: seq<string>, base: seq<string>, cur: seq<string>, w: map<string, string>, k: string)
    requires Wrote(lines, base, cur, w) && SameAt(lines, base) && k in ALL_KEYS && k !in w && FindKey(lines, k).Some?
    ensures var i := FindKey(lines, k).value.idx; i < |lines| && cur[i] == lines[i]
  {
    hide FindKey;
    hide Changed;
    hide ALL_KEYS;
    hide Appended;
    var i := FindKey(lines, k).value.idx;
    FindKeyInRange(lines, k);
    if cur[i] != base[i] {
      var k2 :| k2 in w && FindKey(lines, k2).Some? && FindKey(lines, k2).value.idx == i;
      OwnLine(lines, k, k2);
    }
  }

  lemma AppendWrote(lines: seq<string>, base: seq<string>, cur: seq<string>, w: map<string, string>, k: string, v: string)
    requires Wrote(lines, base, cur, w) && k in ALL_KEYS && k !in w && FindKey(lines, k).None?
    ensures Wrote(lines, base, cur + [TunableLine(k, v, "")], w[k := v])
  {
    hide FindKey;
    hide Changed;
    hide ALL_KEYS;
    hide TunableLine;
    var line, w' := TunableLine(k, v, ""), w[k := v];
    ChangedAppend(lines, cur, line);
    AssignedMore(lines, w, k, v);
    OneLarger(w, k, v);
    forall key | key in w && FindKey(lines, key).Some? ensures FindKey(lines, key).value.idx < |cur| {
      FindKeyInRange(lines, key);
    }
    assert Appended(lines, w', line);
  }

  /** What was assigned or appended stays so with one more parameter. */
  lemma AssignedMore(lines: seq<string>, w: map<string, string>, k: string, v: string)
    requires k !in w
    ensures forall j :: Assigned(lines, w, j) ==> Assigned(lines, w[k := v], j)
    ensures forall line :: Appended(lines, w, line) ==> Appended(lines, w[k := v], line)
  {
    hide FindKey;
    hide TunableLine;
    var w' := w[k := v];
    forall j | Assigned(lines, w, j) ensures Assigned(lines, w', j) {
      var k2 :| k2 in w && FindKey(lines, k2).Some? && FindKey(lines, k2).value.idx == j;
      assert k2 in w';
    }
    forall line | Appended(lines, w, line) ensures Appended(lines, w', line) {
      var k2 :| k2 in w && FindKey(lines, k2).None? && line == TunableLine(k2, w[k2], "");
      assert k2 in w' && w'[k2] == w[k2];
    }
  }

  lemma OneLarger(w: map<string, string>, k: string, v: string)
    requires k !in w
    ensures |w[k := v]| == |w| + 1
  {
    assert w[k := v].Keys == w.Keys + {k};
  }

  lemma ReplaceWrote(lines: seq<string>, base: seq<string>, cur: seq<string>, w: map<string, string>, k: string, v: string)
    requires Wrote(lines, base, cur, w) && SameAt(lines, base) && k in ALL_KEYS && k !in w && FindKey(lines, k).Some?
    requires var r := FindKey(lines, k).value; r.idx < |lines| && TunableLine(k, v, r.extra) != lines[r.idx]
    ensures var r := FindKey(lines, k).value; r.idx < |cur| && Wrote(lines, base, cur[r.idx := TunableLine(k, v, r.extra)], w[k := v])
  {
    hide FindKey;
    hide Changed;
    hide ALL_KEYS;
    hide TunableLine;
    hide Appended;
    var r, w' := FindKey(lines, k).value, w[k := v];
    var line := TunableLine(k, v, r.extra);
    Untouched(lines, base, cur, w, k);
    ChangedUpdate(lines, cur, r.idx, line);
    AssignedMore(lines, w, k, v);
    OneLarger(w, k, v);
    assert Assigned(lines, w', r.idx);
    forall key | key in w' && FindKey(lines, key).Some?
      ensures FindKey(lines, key).value.idx < |cur| && (key != k ==> FindKey(lines, key).value.idx != r.idx)
    {
      FindKeyInRange(lines, key);
      if FindKey(lines, key).value.idx == r.idx {
        OwnLine(lines, key, k);
      }
    }
  }

  /** What is shown differs from the line that is there. */
  lemma ShownDiffers(base: seq<string>, k: string, v: string, parser: FloatParser, numeric: string -> Option<Float>)
    requires k in ALL_KEYS && GoodValue(v) && FindKey(base, k).Some?
    requires Decide(FindKey(base, k), v, parser, numeric, k) == Show
    ensures var r := FindKey(base, k).value; r.idx < |base| && TunableLine(k, v, r.extra) != base[r.idx]
  {
    hide FindKey;
    hide MatchesKey;
    hide ParseKey;
    hide KeyLike;
    hide ParseFloat;
    hide CloseEnough;
    hide IsTail;
    hide TunableLine;
    NamesAreKeyLike();
    FindKeyFacts(base, k);
    hide ALL_KEYS;
    var r := FindKey(base, k).value;
    MatchedShape(base[r.idx], k);
    GoodIsPrintable(v);
    TunableRoundTrip(k, v, r.extra);
  }

  lemma TailIsClean(line: string, extra: string, head: string)
    requires Clean(line) && |extra| <= |line| && line[|line| - |extra|..] == extra
    requires |head| > 0 && forall i :: 0 <= i < |head| ==> head[i] != '\n' && head[i] != '\r'
    ensures Clean(head + extra)
  {
    var s := head + extra;
    assert |extra| > 0 ==> extra[|extra| - 1] == line[|line| - 1];
    assert forall i :: 0 <= i < |extra| ==> extra[i] == line[|line| - |extra| + i];
  }

  lemma TunableIsClean(k: string, v: string, extra: string, line: string)
    requires KeyLike(k) && GoodValue(v) && Clean(line) && |extra| <= |line| && line[|line| - |extra|..] == extra
    ensures Clean(TunableLine(k, v, extra))
  {
    hide Clean;
    var head := k + " = " + v;
    forall i | 0 <= i < |head| ensures head[i] != '\n' && head[i] != '\r' {
      assert head[i] == if i < |k| then k[i] else if i < |k| + 3 then " = "[i - |k|] else v[i - |k| - 3];
    }
    TailIsClean(line, extra, head);
  }

  lemma SetKeyClean(lines: seq<string>, cur: seq<string>, k: string, v: string)
    requires k in ALL_KEYS && GoodValue(v) && AllClean(lines) && AllClean(cur) && |lines| <= |cur|
    ensures var found := FindKey(lines, k); (found.Some? ==> found.value.idx < |cur|) && AllClean(SetKey(cur, k, found, v))
  {
    hide FindKey;
    hide FindShared;
    hide MatchesKey;
    hide ParseKey;
    hide KeyLike;
    hide GoodValue;
    hide Clean;
    hide IsTail;
    hide TunableLine;
    NamesAreKeyLike();
    FindKeyFacts(lines, k);
    hide ALL_KEYS;
    match FindKey(lines, k)
    case None =>
      EmptyIsClean();
      TunableIsClean(k, v, "", "");
    case Some(r) =>
      MatchedShape(lines[r.idx], k);
      TunableIsClean(k, v, r.extra, lines[r.idx]);
  }

  lemma EmptyIsClean()
    ensures Clean("")
  {
  }

  // ---------------------------------------------------------------- all the settings of a list

  /** The settings of `keys` that the group recommends, all of them shown. */
  ghost predicate ToRewrite(lines: seq<string>, g: SettingsGroup, keys: seq<string>, numeric: string -> Option<Float>)
    requires Safe(g.recommender)
  {
    Distinct(keys) && Known(keys) &&
    forall i :: 0 <= i < |keys| ==>
      DecideIn(g, TuneIndex(lines), numeric, keys[i]) == Show && Recommend(g.recommender, keys[i]) != NO_RECOMMENDATION
  }

  ghost function Recommended(g: SettingsGroup, keys: seq<string>): map<string, string>
    requires Safe(g.recommender)
  {
    map k | k in keys :: Recommend(g.recommender, k)
  }

  lemma OneSetting(lines: seq<string>, base: seq<string>, cur: seq<string>, w: map<string, string>,
                                      g: SettingsGroup, k: string, numeric: string -> Option<Float>)
    requires Safe(g.recommender) && Kept(lines, base, cur, w) && SameAt(lines, base) && k in ALL_KEYS && k !in w
    requires DecideIn(g, TuneIndex(lines), numeric, k) == Show && Recommend(g.recommender, k) != NO_RECOMMENDATION
    ensures var found, v := Lookup(TuneIndex(lines), k), Recommend(g.recommender, k);
            (found.Some? ==> found.value.idx < |cur|) && Kept(lines, base, SetKey(cur, k, found, v), w[k := v])
  {
    hide FindKey;
    hide Tracks;
    hide SameAt;
    hide GoodValue;
    hide TunableLine;
    hide Decide;
    hide Recommend;
    hide AllClean;
    hide TuneIndex;
    hide Lookup;
    hide ALL_KEYS;
    var v := Recommend(g.recommender, k);
    LookupIndex(lines, k);
    RecommendationIsGood(g.recommender, k);
    WroteLength(lines, base, cur, w);
    if AllClean(lines) && AllClean(cur) {
      SetKeyClean(lines, cur, k, v);
    }
    if Agree(lines, base) {
      SetKeyTracks(base, cur, w, k, v);
    }
    if FindKey(lines, k).Some? {
      ShownDiffers(lines, k, v, GetFloatParser(g.recommender), numeric);
      KeyOfFound(lines, k);
      hide Wrote;
      ReplaceWrote(lines, base, cur, w, k, v);
    } else {
      hide Wrote;
      AppendWrote(lines, base, cur, w, k, v);
    }
  }

  lemma WroteLength(lines: seq<string>, base: seq<string>, cur: seq<string>, w: map<string, string>)
    requires Wrote(lines, base, cur, w)
    ensures |lines| <= |base| <= |cur|
  {
  }

  lemma KeyOfFound(lines: seq<string>, k: string)
    requires k in ALL_KEYS && FindKey(lines, k).Some?
    ensures FindKey(lines, k).value.key == k
  {
    hide FindKey;
    hide MatchesKey;
    hide ParseKey;
    hide KeyLike;
    NamesAreKeyLike();
    FindKeyFacts(lines, k);
    hide ALL_KEYS;
    MatchedShape(lines[FindKey(lines, k).value.idx], k);
  }

  /** Rewriting a list of shown settings: all of them end up set, and each is one change. */
  lemma {:induction false} SetKeysKeep(lines: seq<string>, base: seq<string>, cur: seq<string>, w: map<string, string>,
                                       g: SettingsGroup, keys: seq<string>, numeric: string -> Option<Float>)
    requires Safe(g.recommender) && InRange(TuneIndex(lines), cur)
    requires Kept(lines, base, cur, w) && SameAt(lines, base) && ToRewrite(lines, g, keys, numeric) && Fresh(keys, w)
    ensures Kept(lines, base, SetKeys(cur, g, keys, TuneIndex(lines)), w + Recommended(g, keys))
    ensures |w + Recommended(g, keys)| == |w| + |keys|
    decreases keys
  {
    hide Kept;
    hide SameAt;
    hide Recommend;
    hide DecideIn;
    hide SetKey;
    hide TuneIndex;
    hide Lookup;
    hide ALL_KEYS;
    if |keys| == 0 {
      hide ToRewrite;
      assert w + Recommended(g, keys) == w;
    } else {
      var k := keys[0];
      var v := Recommend(g.recommender, k);
      assert DecideIn(g, TuneIndex(lines), numeric, k) == Show && v != NO_RECOMMENDATION && k in ALL_KEYS && k !in w;
      OneSetting(lines, base, cur, w, g, k, numeric);
      var next := SetKey(cur, k, Lookup(TuneIndex(lines), k), v);
      RestToRewrite(lines, g, keys, w, numeric);
      OneMore(g, keys, w);
      OneLarger(w, k, v);
      hide Recommended;
      hide ToRewrite;
      hide Fresh;
      SetKeysKeep(lines, base, next, w[k := v], g, keys[1..], numeric);
    }
  }

  lemma RestToRewrite(lines: seq<string>, g: SettingsGroup, keys: seq<string>, w: map<string, string>, numeric: string -> Option<Float>)
    requires Safe(g.recommender) && |keys| > 0 && ToRewrite(lines, g, keys, numeric) && Fresh(keys, w)
    ensures ToRewrite(lines, g, keys[1..], numeric) && Fresh(keys[1..], w[keys[0] := Recommend(g.recommender, keys[0])])
  {
    hide Recommend;
    hide DecideIn;
    hide TuneIndex;
    hide ALL_KEYS;
  }

  lemma OneMore(g: SettingsGroup, keys: seq<string>, w: map<string, string>)
    requires Safe(g.recommender) && |keys| > 0
    ensures w[keys[0] := Recommend(g.recommender, keys[0])] + Recommended(g, keys[1..]) == w + Recommended(g, keys)
  {
    hide Recommend;
    assert keys == [keys[0]] + keys[1..];
  }

  // ---------------------------------------------------------------- a group

  /** A setting that is written if its group is accepted. */
  ghost predicate Proposed(g: SettingsGroup, tune: map<string, ParseResult>, numeric: string -> Option<Float>, k: string)
    requires Safe(g.recommender)
  {
    k in g.keys && DecideIn(g, tune, numeric, k) == Show && Recommend(g.recommender, k) != NO_RECOMMENDATION
  }

  lemma {:induction false} RewrittenFacts(g: SettingsGroup, keys: seq<string>, lines: seq<string>, numeric: string -> Option<Float>)
    requires Safe(g.recommender) && Distinct(keys) && Known(keys)
    ensures var out := Rewritten(g, keys, TuneIndex(lines), numeric);
            && ToRewrite(lines, g, out, numeric)
            && (forall k :: k in out <==>
                  k in keys && DecideIn(g, TuneIndex(lines), numeric, k) == Show && Recommend(g.recommender, k) != NO_RECOMMENDATION)
    decreases keys
  {
    hide Recommend;
    hide DecideIn;
    hide TuneIndex;
    hide ALL_KEYS;
    if |keys| > 0 {
      RewrittenFacts(g, keys[1..], lines, numeric);
      assert keys == [keys[0]] + keys[1..];
    }
  }

  ghost predicate GoodKeys(g: SettingsGroup) {
    Distinct(g.keys) && Known(g.keys)
  }

  /** The settings of one group, written when it is accepted. */
  ghost function Proposals(g: SettingsGroup, tune: map<string, ParseResult>, numeric: string -> Option<Float>): map<string, string>
    requires Safe(g.recommender)
  {
    Recommended(g, Rewritten(g, g.keys, tune, numeric))
  }

  lemma ProposalsIff(g: SettingsGroup, lines: seq<string>, numeric: string -> Option<Float>)
    requires Safe(g.recommender) && GoodKeys(g)
    ensures var w := Proposals(g, TuneIndex(lines), numeric);
            && (forall k :: k in w <==> Proposed(g, TuneIndex(lines), numeric, k))
            && (forall k :: k in w ==> w[k] == Recommend(g.recommender, k))
  {
    hide Recommend;
    hide DecideIn;
    hide TuneIndex;
    hide ALL_KEYS;
    hide Rewritten;
    RewrittenFacts(g, g.keys, lines, numeric);
  }

  /** The question of a group, when there is one, was answered with yes. */
  ghost predicate Accepts(g: SettingsGroup, tune: map<string, ParseResult>, env: Env, f: Flags, input: string)
    requires Safe(g.recommender)
  {
    !SomeFail(g, tune, env.numeric) && SomeShown(g, tune, env.numeric) && (f.quiet || Ask(f, input, SkipQuit).0 == Yes)
  }

  /** What one group does: its proposals are written if it is accepted, and nothing otherwise. */
  lemma GroupKeeps(lines: seq<string>, base: seq<string>, w: map<string, string>, g: SettingsGroup,
                                      env: Env, f: Flags, s: Session)
    requires Safe(g.recommender) && InRange(TuneIndex(lines), s.lines) && GoodKeys(g)
    requires Kept(lines, base, s.lines, w) && SameAt(lines, base) && Fresh(g.keys, w)
    ensures var r := GroupStep(g, TuneIndex(lines), env, f, s);
            var more := if Accepts(g, TuneIndex(lines), env, f, s.input) then Proposals(g, TuneIndex(lines), env.numeric) else map[];
            && Kept(lines, base, r.State().lines, w + more)
            && (f.quiet ==> r.State().writes == s.writes + |w + more| - |w|)
  {
    hide GoodKeys;
    hide Fresh;
    hide Kept;
    hide SameAt;
    hide Recommend;
    hide DecideIn;
    hide TuneIndex;
    hide Ask;
    hide SomeFail;
    hide SomeShown;
    hide Rewritten;
    hide SetKeys;
    hide InRange;
    hide ALL_KEYS;
    hide Safe;
    hide Proposals;
    GroupWritten(lines, base, w, g, env.numeric, s.lines);
    WithNothing(w);
    if Accepts(g, TuneIndex(lines), env, f, s.input) {
      assert GroupStep(g, TuneIndex(lines), env, f, s).State().lines ==
             SetKeys(s.lines, g, Rewritten(g, g.keys, TuneIndex(lines), env.numeric), TuneIndex(lines));
    } else {
      assert GroupStep(g, TuneIndex(lines), env, f, s).State().lines == s.lines;
    }
  }

  lemma WithNothing(w: map<string, string>)
    ensures w + map[] == w
  {
  }

  lemma GroupWritten(lines: seq<string>, base: seq<string>, w: map<string, string>, g: SettingsGroup,
                                        numeric: string -> Option<Float>, cur: seq<string>)
    requires Safe(g.recommender) && InRange(TuneIndex(lines), cur) && GoodKeys(g)
    requires Kept(lines, base, cur, w) && SameAt(lines, base) && Fresh(g.keys, w)
    ensures var keys, w' := Rewritten(g, g.keys, TuneIndex(lines), numeric), w + Proposals(g, TuneIndex(lines), numeric);
            Kept(lines, base, SetKeys(cur, g, keys, TuneIndex(lines)), w') && |w'| == |w| + |keys|
  {
    hide Kept;
    hide SameAt;
    hide Recommend;
    hide DecideIn;
    hide TuneIndex;
    hide Rewritten;
    hide SetKeys;
    hide InRange;
    hide ALL_KEYS;
    var keys := Rewritten(g, g.keys, TuneIndex(lines), numeric);
    RewrittenFacts(g, g.keys, lines, numeric);
    FreshKeys(g.keys, keys, w);
    hide Fresh;
    hide ToRewrite;
    SetKeysKeep(lines, base, cur, w, g, keys, numeric);
    hide Recommended;
  }

  lemma FreshKeys(all: seq<string>, some: seq<string>, w: map<string, string>)
    requires Fresh(all, w) && forall k :: k in some ==> k in all
    ensures Fresh(some, w)
  {
    forall i | 0 <= i < |some| ensures some[i] !in w {
      assert some[i] in all;
    }
  }
}
