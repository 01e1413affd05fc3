/**
  The index built when the file is scanned is never refreshed.  These lemmas show that it does not
  need to be: for every parameter not yet rewritten it is what scanning the current lines would give.
 */
module StaleIndex {
  import opened Text
  import opened Lines
  import opened TuneSettings
  import opened LineGrammar
  import opened SharedPreloadLibs
  import opened LineKinds
  import opened PgTune
  import opened Tuning
  import opened Recommendations

  // ---------------------------------------------------------------- finding, without the details

  lemma FindKeyFacts(lines: seq<string>, k: string)
    ensures match FindKey(lines, k)
            case None => forall j :: 0 <= j < |lines| ==> !MatchesKey(lines[j], k)
            case Some(r) =>
              r.idx < |lines| && MatchesKey(lines[r.idx], k) && r == ParseKey(lines[r.idx], k).value.(idx := r.idx) &&
              forall j :: r.idx < j < |lines| ==> !MatchesKey(lines[j], k)
  {
    hide MatchesKey;
    hide ParseKey;
    var r := Last(lines, KeyLines(k));
    assert forall j :: 0 <= j < |lines| ==> KeyLines(k)(lines[j]) == MatchesKey(lines[j], k);
  }

  /** A line is a line of at most one parameter. */
  lemma MatchesOne(line: string, k1: string, k2: string)
    requires KeyLike(k1) && KeyLike(k2) && MatchesKey(line, k1) && MatchesKey(line, k2)
    ensures k1 == k2
  {
    hide ParseKey;
    hide ParseParam;
    hide IsSharedLine;
    if k1 != k2 {
      PatternsDisjoint(line, k1, k2);
    }
  }

  /** A rewritten line: a line of its parameter, with the value asked for, and of nothing else. */
  lemma RewrittenLine(k: string, v: string, extra: string, prior: string)
    requires KeyLike(k) && GoodValue(v) && IsTail(extra)
    requires |extra| <= |prior| && prior[|prior| - |extra|..] == extra && !IsSharedLine(prior)
    ensures var line := TunableLine(k, v, extra);
            !IsSharedLine(line) && MatchesKey(line, k) && ParseKey(line, k) == Some(ParseResult(0, false, k, v, extra)) &&
            (forall k2 :: KeyLike(k2) && k2 != k ==> !MatchesKey(line, k2) && ParseParam(line, k2).None?)
  {
    hide ParseKey;
    hide ParseParam;
    hide IsSharedLine;
    hide IsTail;
    hide KeyLike;
    hide GoodValue;
    hide TunableLine;
    var line := TunableLine(k, v, extra);
    GoodIsPrintable(v);
    TunableRoundTrip(k, v, extra);
    TunableNotShared(k, v, extra, prior);
    forall k2 | KeyLike(k2) && k2 != k ensures !MatchesKey(line, k2) && ParseParam(line, k2).None? {
      PatternsDisjoint(line, k, k2);
    }
  }

  lemma NothingIsNotShared()
    ensures !IsSharedLine("") && IsTail("")
  {
    hide IsSharedLine;
    SharedIff("");
  }

  // ---------------------------------------------------------------- the invariant

  /** `after` is where `before` was, or anywhere if there was nothing, active and with value `v`. */
  predicate IsSet(before: Option<ParseResult>, after: Option<ParseResult>, v: string) {
    after.Some? && !after.value.commented && after.value.value == v &&
    (before.Some? ==> after.value.idx == before.value.idx && after.value.extra == before.value.extra)
  }

  /**
    `cur` is `base` with the parameters of `w` rewritten to their values: every other parameter is
    found where it was, the shared-library line is where it was, and only lines the index of `base`
    gives to a rewritten parameter differ.
   */
  ghost predicate Tracks(base: seq<string>, cur: seq<string>, w: map<string, string>) {
    && |base| <= |cur|
    && w.Keys <= ALL_KEYS
    && (forall k :: k in ALL_KEYS && k !in w ==> FindKey(cur, k) == FindKey(base, k))
    && (forall k :: k in w ==> IsSet(FindKey(base, k), FindKey(cur, k), w[k]))
    && FindShared(cur) == FindShared(base)
    && (forall j :: 0 <= j < |base| && cur[j] != base[j] ==> Assigned(base, w, j))
  }

  /** Line `j` is the line the index of `base` gives to a parameter of `w`. */
  ghost predicate Assigned(base: seq<string>, w: map<string, string>, j: nat) {
    exists k :: k in w && FindKey(base, k).Some? && FindKey(base, k).value.idx == j
  }

  lemma TracksItself(base: seq<string>)
    ensures Tracks(base, base, map[])
  {
    hide FindKey;
    hide FindShared;
  }

  // ---------------------------------------------------------------- one parameter rewritten

  lemma FindKeyAfterAppend(lines: seq<string>, line: string, k: string)
    ensures FindKey(lines + [line], k) ==
            if MatchesKey(line, k) then Some(ParseKey(line, k).value.(idx := |lines|)) else FindKey(lines, k)
  {
    hide MatchesKey;
    hide ParseKey;
    LastOfAppend(lines, line, KeyLines(k));
  }

  lemma FindSharedAfterAppend(lines: seq<string>, line: string)
    requires !IsSharedLine(line)
    ensures FindShared(lines + [line]) == FindShared(lines)
  {
    hide IsSharedLine;
    hide ParseLine;
    LastOfAppend(lines, line, SharedLines());
  }

  lemma FindKeyAfterUpdate(lines: seq<string>, i: nat, line: string, k: string)
    requires i < |lines| && !MatchesKey(lines[i], k) && !MatchesKey(line, k)
    ensures FindKey(lines[i := line], k) == FindKey(lines, k)
  {
    hide MatchesKey;
    hide ParseKey;
    LastOfOtherUpdate(lines, i, line, KeyLines(k));
  }

  lemma FindSharedAfterUpdate(lines: seq<string>, i: nat, line: string)
    requires i < |lines| && !IsSharedLine(lines[i]) && !IsSharedLine(line)
    ensures FindShared(lines[i := line]) == FindShared(lines)
  {
    hide IsSharedLine;
    hide ParseLine;
    LastOfOtherUpdate(lines, i, line, SharedLines());
  }

  lemma FindKeyAfterOwnUpdate(lines: seq<string>, i: nat, line: string, k: string)
    requires FindKey(lines, k).Some? && FindKey(lines, k).value.idx == i && MatchesKey(line, k)
    ensures i < |lines| && FindKey(lines[i := line], k) == Some(ParseKey(line, k).value.(idx := i))
  {
    hide MatchesKey;
    hide ParseKey;
    LastOfOwnUpdate(lines, i, line, KeyLines(k));
  }

  lemma AppendTracks(base: seq<string>, cur: seq<string>, w: map<string, string>, k: string, v: string)
    requires Tracks(base, cur, w) && k in ALL_KEYS && k !in w && GoodValue(v) && FindKey(base, k).None?
    ensures Tracks(base, cur + [TunableLine(k, v, "")], w[k := v])
  {
    hide FindKey;
    hide FindShared;
    hide KeyLike;
    hide MatchesKey;
    hide ParseKey;
    hide ParseParam;
    hide IsSharedLine;
    hide GoodValue;
    hide IsTail;
    hide TunableLine;
    NamesAreKeyLike();
    NothingIsNotShared();
    var line := TunableLine(k, v, "");
    var cur' := cur + [line];
    RewrittenLine(k, v, "", "");
    FindSharedAfterAppend(cur, line);
    forall k2 | k2 in ALL_KEYS
      ensures FindKey(cur', k2) == if k2 == k then Some(ParseResult(|cur|, false, k, v, "")) else FindKey(cur, k2)
    {
      FindKeyAfterAppend(cur, line, k2);
    }
    hide ALL_KEYS;
    AssignedGrows(base, cur, cur', w, k, v);
  }

  lemma AssignedGrows(base: seq<string>, cur: seq<string>, cur': seq<string>, w: map<string, string>, k: string, v: string)
    requires |base| <= |cur| <= |cur'| && k !in w
    requires forall j :: 0 <= j < |base| && cur[j] != base[j] ==> Assigned(base, w, j)
    requires forall j :: 0 <= j < |base| && cur'[j] != cur[j] ==> FindKey(base, k).Some? && FindKey(base, k).value.idx == j
    ensures forall j :: 0 <= j < |base| && cur'[j] != base[j] ==> Assigned(base, w[k := v], j)
  {
    hide FindKey;
    var w' := w[k := v];
    forall j | 0 <= j < |base| && cur'[j] != base[j] ensures Assigned(base, w', j) {
      if cur'[j] != cur[j] {
        assert k in w';
      } else {
        var k2 :| k2 in w && FindKey(base, k2).Some? && FindKey(base, k2).value.idx == j;
        assert k2 in w';
      }
    }
  }

  lemma ReplaceTracks(base: seq<string>, cur: seq<string>, w: map<string, string>, k: string, v: string)
    requires Tracks(base, cur, w) && k in ALL_KEYS && k !in w && GoodValue(v) && FindKey(base, k).Some?
    ensures var r := FindKey(base, k).value;
            r.idx < |cur| && r.key == k && Tracks(base, cur[r.idx := TunableLine(k, v, r.extra)], w[k := v])
  {
    hide FindKey;
    hide FindShared;
    hide KeyLike;
    hide MatchesKey;
    hide ParseKey;
    hide ParseParam;
    hide IsSharedLine;
    hide GoodValue;
    hide IsTail;
    hide TunableLine;
    NamesAreKeyLike();
    var r := FindKey(base, k).value;
    FindKeyFacts(cur, k);
    MatchedShape(cur[r.idx], k);
    var line := TunableLine(k, v, r.extra);
    var cur' := cur[r.idx := line];
    RewrittenLine(k, v, r.extra, cur[r.idx]);
    FindSharedAfterUpdate(cur, r.idx, line);
    forall k2 | k2 in ALL_KEYS
      ensures FindKey(cur', k2) == if k2 == k then Some(ParseResult(r.idx, false, k, v, r.extra)) else FindKey(cur, k2)
    {
      if k2 == k {
        FindKeyAfterOwnUpdate(cur, r.idx, line, k);
      } else {
        if MatchesKey(cur[r.idx], k2) {
          MatchesOne(cur[r.idx], k, k2);
        }
        FindKeyAfterUpdate(cur, r.idx, line, k2);
      }
    }
    hide ALL_KEYS;
    AssignedGrows(base, cur, cur', w, k, v);
  }

  lemma MatchedShape(line: string, k: string)
    requires KeyLike(k) && MatchesKey(line, k)
    ensures !IsSharedLine(line) && ParseKey(line, k).Some?
    ensures var r := ParseKey(line, k).value;
            r.key == k && IsTail(r.extra) && |r.extra| <= |line| && line[|line| - |r.extra|..] == r.extra
  {
    hide ParseKey;
    hide IsTail;
    hide IsSharedLine;
    ParsedShape(line, k);
  }

  /**
    Rewriting one more parameter through the index of `base` hits that parameter's line, or appends
    one, and leaves the index right for every other parameter.
   */
  lemma SetKeyTracks(base: seq<string>, cur: seq<string>, w: map<string, string>, k: string, v: string)
    requires Tracks(base, cur, w) && k in ALL_KEYS && k !in w && GoodValue(v)
    ensures var found := FindKey(base, k);
            (found.Some? ==> found.value.idx < |cur|) && Tracks(base, SetKey(cur, k, found, v), w[k := v])
  {
    hide FindKey;
    hide Tracks;
    hide GoodValue;
    hide ALL_KEYS;
    match FindKey(base, k)
    case None => AppendTracks(base, cur, w, k, v);
    case Some(r) => ReplaceTracks(base, cur, w, k, v);
  }
}
