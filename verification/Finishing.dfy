/** The tuner's own parameters at the end of a run: stamped once each, and nothing else disturbed. */
module Finishing {
  import opened Text
  import opened Lines
  import opened TuneSettings
  import opened LineGrammar
  import opened SharedPreloadLibs
  import opened LineKinds
  import opened PgTune
  import opened Tuning
  import opened Recommendations
  import opened StaleIndex

  /** A time stamp the quoted pattern reads back. */
  predicate GoodClock(clock: string) {
    |clock| > 0 && OneLine(clock) && '\'' !in clock
  }

  lemma VersionIsGood()
    ensures GoodClock(VERSION)
  {
  }

  /** A stamp is a line of its own parameter and of nothing else. */
  lemma StampLine(param: string, clock: string)
    requires param in OUR_PARAMS && GoodClock(clock)
    ensures var line := OurParamString(param, clock);
            ParamLines(param)(line) && !IsSharedLine(line) && Clean(line) &&
            (forall k :: KeyLike(k) && k != param ==> !MatchesKey(line, k) && ParseParam(line, k).None?)
  {
    NamesAreKeyLike();
    VersionIsGood();
    StampEnds();
    hide ParseKey;
    hide ParseParam;
    hide IsSharedLine;
    hide KeyLike;
    hide Clean;
    hide GoodClock;
    var v := if param == LAST_TUNED then clock else VERSION;
    GoodClockFacts(v);
    var line := ParamLine(param, v);
    StampIsClean(param, v);
    ParamRoundTrip(param, v);
    ParamNotShared(param, v);
    forall k | KeyLike(k) && k != param ensures !MatchesKey(line, k) && ParseParam(line, k).None? {
      PatternsDisjoint(line, param, k);
    }
  }

  /** Read back, the stamps are the time of the run and the version of the program. */
  lemma StampsAreRead(clock: string)
    requires GoodClock(clock)
    ensures ParseParam(OurParamString(LAST_TUNED, clock), LAST_TUNED) == Some(ParseResult(0, false, LAST_TUNED, clock, ""))
    ensures ParseParam(OurParamString(LAST_TUNED_VERSION, clock), LAST_TUNED_VERSION) ==
            Some(ParseResult(0, false, LAST_TUNED_VERSION, VERSION, ""))
  {
    NamesAreKeyLike();
    VersionIsGood();
    OwnNamesDiffer();
    hide ParseParam;
    hide KeyLike;
    ParamRoundTrip(LAST_TUNED, clock);
    ParamRoundTrip(LAST_TUNED_VERSION, VERSION);
  }

  lemma GoodClockFacts(v: string)
    requires GoodClock(v)
    ensures |v| > 0 && OneLine(v) && '\'' !in v
  {
  }

  lemma StampEnds()
    ensures forall p :: p in OUR_PARAMS ==> |p| > 0 && p[|p| - 1] != 's'
  {
  }

  lemma StampIsClean(param: string, v: string)
    requires KeyLike(param) && OneLine(v)
    ensures Clean(ParamLine(param, v))
  {
    var s := ParamLine(param, v);
    forall i | 0 <= i < |s| ensures s[i] != '\n' {
      assert s[i] == if i < |param| then param[i] else if i < |param| + 4 then " = '"[i - |param|]
                     else if i < |s| - 1 then v[i - |param| - 4] else '\'';
    }
  }

  // ---------------------------------------------------------------- stamping, line by line

  /** Each stamped position held a line of the parameter stamped there. */
  lemma StampedAt(lines: seq<string>, clock: string, i: nat)
    requires i < |lines|
    ensures var out := StampStep(lines, clock);
            i < |out| &&
            match OwnerOf(lines, i)
            case Some(p) => p in OUR_PARAMS && ParamLines(p)(lines[i]) && Last(lines, ParamLines(p)) == Some(i) && out[i] == OurParamString(p, clock)
            case None => out[i] == lines[i]
  {
    hide ParamLines;
    hide OurParamString;
    hide Last;
  }

  lemma {:induction false} AbsentFacts(lines: seq<string>, params: seq<string>)
    ensures forall i :: 0 <= i < |Absent(lines, params)| ==>
              Absent(lines, params)[i] in params && Last(lines, ParamLines(Absent(lines, params)[i])).None?
    ensures forall p :: p in params && Last(lines, ParamLines(p)).None? ==> p in Absent(lines, params)
  {
    hide Last;
    hide ParamLines;
    if |params| > 0 {
      AbsentFacts(lines, params[1..]);
    }
  }

  /** Each appended line is the stamp of a parameter that had no line. */
  lemma AppendedAt(lines: seq<string>, clock: string, i: nat) returns (p: string)
    requires |lines| <= i < |StampStep(lines, clock)|
    ensures p in OUR_PARAMS && Last(lines, ParamLines(p)).None? && StampStep(lines, clock)[i] == OurParamString(p, clock)
  {
    hide OurParamString;
    hide ParamLines;
    hide Last;
    AbsentFacts(lines, OUR_PARAMS);
    p := Absent(lines, OUR_PARAMS)[i - |lines|];
    hide Absent;
    assert StampStep(lines, clock)[i] == Stamps(Absent(lines, OUR_PARAMS), clock)[i - |lines|];
  }

  // ---------------------------------------------------------------- other kinds of lines

  /** No line of another kind is stamped over, and no stamp is of another kind. */
  lemma StampKeepsKind(lines: seq<string>, clock: string, q: string -> bool)
    requires forall p :: p in OUR_PARAMS ==> !q(OurParamString(p, clock))
    requires Last(lines, q).Some? ==> forall p :: p in OUR_PARAMS ==> !ParamLines(p)(lines[Last(lines, q).value])
    ensures Last(StampStep(lines, clock), q) == Last(lines, q)
    ensures Last(lines, q).Some? ==> StampStep(lines, clock)[Last(lines, q).value] == lines[Last(lines, q).value]
  {
    hide OurParamString;
    hide ParamLines;
    hide OwnerOf;
    hide StampStep;
    var out := StampStep(lines, clock);
    StampLength(lines, clock);
    forall i | 0 <= i < |lines| && (Last(lines, q).Some? ==> Last(lines, q).value <= i)
      ensures q(out[i]) ==> out[i] == lines[i]
      ensures Last(lines, q) == Some(i) ==> out[i] == lines[i]
    {
      StampedAt(lines, clock, i);
    }
    forall i | |lines| <= i < |out| ensures !q(out[i]) {
      var p := AppendedAt(lines, clock, i);
    }
    LastPointwise(lines, out, q);
  }

  lemma StampLength(lines: seq<string>, clock: string)
    ensures |lines| <= |StampStep(lines, clock)|
  {
  }

  lemma MarkIsOwn(lines: seq<string>, i: nat)
    requires i < |lines| && Marks(lines)[i]
    ensures exists p :: p in OUR_PARAMS && ParamLines(p)(lines[i]) && Last(lines, ParamLines(p)) != Some(i)
  {
    hide ParamLines;
    hide Last;
  }

  /** The last line of another kind comes through the end of the run with its text. */
  lemma FinishKeepsKind(lines: seq<string>, clock: string, q: string -> bool)
    requires forall p :: p in OUR_PARAMS ==> !q(OurParamString(p, clock))
    requires Last(lines, q).Some? ==> forall p :: p in OUR_PARAMS ==> !ParamLines(p)(lines[Last(lines, q).value])
    ensures var out := Finish(lines, clock);
            match Last(lines, q)
            case None => Last(out, q) == None
            case Some(i) => Last(out, q).Some? && out[Last(out, q).value] == lines[i]
  {
    hide OurParamString;
    hide ParamLines;
    hide StampStep;
    hide Marks;
    StampKeepsKind(lines, clock, q);
    var stamped := StampStep(lines, clock);
    if Last(stamped, q).Some? && Marks(stamped)[Last(stamped, q).value] {
      MarkIsOwn(stamped, Last(stamped, q).value);
    }
    LastOfUnmarked(stamped, Marks(stamped), q);
  }

  /** Every tuned parameter reads the same after the end of the run. */
  lemma FinishKeepsKeys(lines: seq<string>, clock: string, k: string)
    requires GoodClock(clock) && k in ALL_KEYS
    ensures match FindKey(lines, k)
            case None => FindKey(Finish(lines, clock), k) == None
            case Some(r) => FindKey(Finish(lines, clock), k).Some? && FindKey(Finish(lines, clock), k).value.(idx := r.idx) == r
  {
    hide ParseKey;
    hide ParseParam;
    hide MatchesKey;
    hide KeyLike;
    hide Finish;
    hide OurParamString;
    NamesAreKeyLike();
    OwnNamesDiffer();
    forall p | p in OUR_PARAMS ensures !KeyLines(k)(OurParamString(p, clock)) {
      StampLine(p, clock);
    }
    var last := Last(lines, KeyLines(k));
    if last.Some? {
      forall p | p in OUR_PARAMS ensures !ParamLines(p)(lines[last.value]) {
        KeyIsNotOwn(lines[last.value], k, p);
      }
    }
    FinishKeepsKind(lines, clock, KeyLines(k));
  }

  lemma KeyIsNotOwn(line: string, k: string, p: string)
    requires k in ALL_KEYS && p in OUR_PARAMS && MatchesKey(line, k)
    ensures !ParamLines(p)(line)
  {
    hide ParseKey;
    hide ParseParam;
    hide KeyLike;
    hide IsSharedLine;
    NamesAreKeyLike();
    OwnNamesDiffer();
    hide ALL_KEYS;
    PatternsDisjoint(line, k, p);
  }

  /** The selected shared-library line comes through the end of the run. */
  lemma FinishKeepsShared(lines: seq<string>, clock: string)
    requires GoodClock(clock)
    requires FindShared(lines).Some? ==> WellPlaced(lines[FindShared(lines).value.idx])
    ensures match FindShared(lines)
            case None => FindShared(Finish(lines, clock)) == None
            case Some(r) =>
              var found := FindShared(Finish(lines, clock));
              found.Some? && found.value.(idx := r.idx) == r && Finish(lines, clock)[found.value.idx] == lines[r.idx]
  {
    hide IsSharedLine;
    hide ParseLine;
    hide ParseParam;
    hide ParseKey;
    hide KeyLike;
    hide WellPlaced;
    hide Finish;
    hide OurParamString;
    NamesAreKeyLike();
    LibNameIsOther();
    forall p | p in OUR_PARAMS ensures !SharedLines()(OurParamString(p, clock)) {
      StampLine(p, clock);
    }
    var last := Last(lines, SharedLines());
    if last.Some? {
      forall p | p in OUR_PARAMS ensures !ParamLines(p)(lines[last.value]) {
        SharedNotParam(lines[last.value], p);
      }
    }
    FinishKeepsKind(lines, clock, SharedLines());
  }

  lemma LibNameIsOther()
    ensures forall p :: p in OUR_PARAMS ==> p != LIB_NAME
  {
  }

  // ---------------------------------------------------------------- our own lines

  /** After stamping, the last line of each of our parameters is its fresh stamp. */
  lemma StampsAreLast(lines: seq<string>, clock: string, p: string)
    requires GoodClock(clock) && p in OUR_PARAMS
    ensures var out := StampStep(lines, clock);
            var last := Last(out, ParamLines(p));
            last.Some? && out[last.value] == OurParamString(p, clock)
  {
    hide ParseParam;
    hide OurParamString;
    hide OwnerOf;
    hide StampStep;
    hide Last;
    hide ParamLines;
    hide MatchesKey;
    hide IsSharedLine;
    hide Clean;
    hide GoodClock;
    var out := StampStep(lines, clock);
    var i := StampPosition(lines, clock, p);
    StampLength(lines, clock);
    StampLine(p, clock);
    var last := Last(out, ParamLines(p));
    assert last.Some? && i <= last.value;
    if i < last.value {
      LaterIsStamp(lines, clock, p, last.value);
    }
  }

  lemma StampPosition(lines: seq<string>, clock: string, p: string) returns (i: nat)
    requires p in OUR_PARAMS
    ensures i < |StampStep(lines, clock)| && StampStep(lines, clock)[i] == OurParamString(p, clock)
    ensures match Last(lines, ParamLines(p)) case Some(j) => i == j case None => i >= |lines|
  {
    hide OurParamString;
    hide Last;
    hide ParseParam;
    AbsentFacts(lines, OUR_PARAMS);
    match Last(lines, ParamLines(p))
    case Some(j) =>
      StampedAt(lines, clock, j);
      OwnerIs(lines, p, j);
      i := j;
    case None =>
      var absent := Absent(lines, OUR_PARAMS);
      var k :| 0 <= k < |absent| && absent[k] == p;
      i := |lines| + k;
      assert StampStep(lines, clock)[i] == Stamps(absent, clock)[k];
  }

  lemma OwnerIs(lines: seq<string>, p: string, j: nat)
    requires p in OUR_PARAMS && Last(lines, ParamLines(p)) == Some(j)
    ensures OwnerOf(lines, j) == Some(p)
  {
    hide Last;
    hide ParseParam;
    hide ParseKey;
    hide KeyLike;
    NamesAreKeyLike();
    OwnNamesDiffer();
    if p == LAST_TUNED_VERSION && Last(lines, ParamLines(LAST_TUNED)) == Some(j) {
      PatternsDisjoint(lines[j], LAST_TUNED, LAST_TUNED_VERSION);
    }
  }

  /** A line of the parameter at or after its last original line is a stamp. */
  lemma LaterIsStamp(lines: seq<string>, clock: string, p: string, j: nat)
    requires GoodClock(clock) && p in OUR_PARAMS && j < |StampStep(lines, clock)| && ParamLines(p)(StampStep(lines, clock)[j])
    requires match Last(lines, ParamLines(p)) case Some(i) => i < j case None => true
    ensures StampStep(lines, clock)[j] == OurParamString(p, clock)
  {
    hide OurParamString;
    hide OwnerOf;
    hide StampStep;
    hide Last;
    hide ParseParam;
    hide KeyLike;
    NamesAreKeyLike();
    if j < |lines| {
      StampedAt(lines, clock, j);
      if OwnerOf(lines, j).Some? {
        StampLine(OwnerOf(lines, j).value, clock);
      }
    } else {
      var p' := AppendedAt(lines, clock, j);
      StampLine(p', clock);
    }
  }

  lemma {:induction false} MarkedIff(lines: seq<string>, p: string, i: nat)
    requires p in OUR_PARAMS && i < |lines| && ParamLines(p)(lines[i])
    ensures Marks(lines)[i] <==> Last(lines, ParamLines(p)) != Some(i)
  {
    hide ParseParam;
    hide ParseKey;
    hide KeyLike;
    hide Last;
    NamesAreKeyLike();
    forall p2 | p2 in OUR_PARAMS && p2 != p ensures !ParamLines(p2)(lines[i]) {
      PatternsDisjoint(lines[i], p, p2);
    }
  }

  /**
    Whatever the lines were, the output has exactly one line of each of our parameters, and it is
    that parameter's fresh stamp; only lines of our parameters are marked for removal.
   */
  lemma OneStampEach(lines: seq<string>, clock: string, p: string)
    requires GoodClock(clock) && p in OUR_PARAMS
    ensures var stamped := StampStep(lines, clock);
            forall i :: 0 <= i < |stamped| && Marks(stamped)[i] ==> exists p' :: p' in OUR_PARAMS && ParamLines(p')(stamped[i])
    ensures var out := Finish(lines, clock);
            && Count(out, ParamLines(p)) == 1
            && (forall i :: 0 <= i < |out| && ParamLines(p)(out[i]) ==> out[i] == OurParamString(p, clock))
  {
    hide ParseParam;
    hide OurParamString;
    hide StampStep;
    hide Marks;
    hide Last;
    hide Count;
    hide Unmarked;
    var stamped := StampStep(lines, clock);
    var marks := Marks(stamped);
    forall i | 0 <= i < |stamped| && marks[i] ensures exists p' :: p' in OUR_PARAMS && ParamLines(p')(stamped[i]) {
      MarkIsOwn(stamped, i);
    }
    StampsAreLast(lines, clock, p);
    forall i | 0 <= i < |stamped| && ParamLines(p)(stamped[i])
      ensures marks[i] <==> Last(stamped, ParamLines(p)) != Some(i)
    {
      MarkedIff(stamped, p, i);
    }
    OneUnmarked(stamped, marks, ParamLines(p));
    LastOfUnmarked(stamped, marks, ParamLines(p));
    CountOne(Unmarked(stamped, marks), ParamLines(p));
  }

  /** With one line of each parameter, all of them fresh, the end of a run changes nothing. */
  lemma {:induction false} FinishIsIdentity(out: seq<string>, clock: string)
    requires forall p :: p in OUR_PARAMS ==> Count(out, ParamLines(p)) == 1
    requires forall p, i :: p in OUR_PARAMS && 0 <= i < |out| && ParamLines(p)(out[i]) ==> out[i] == OurParamString(p, clock)
    ensures Finish(out, clock) == out
  {
    hide ParseParam;
    hide OurParamString;
    hide Last;
    hide Count;
    hide Unmarked;
    forall p | p in OUR_PARAMS
      ensures Last(out, ParamLines(p)).Some? && forall i :: 0 <= i < |out| && ParamLines(p)(out[i]) ==> Last(out, ParamLines(p)) == Some(i)
    {
      CountOne(out, ParamLines(p));
    }
    AbsentNone(out, OUR_PARAMS);
    assert Restamp(out, clock) == out;
    assert StampStep(out, clock) == out + [] == out;
    forall i | 0 <= i < |out| ensures !Marks(out)[i] {
      if Marks(out)[i] {
        MarkIsOwn(out, i);
      }
    }
    NothingMarked(out, Marks(out));
  }

  lemma {:induction false} AbsentNone(lines: seq<string>, params: seq<string>)
    requires forall p :: p in params ==> Last(lines, ParamLines(p)).Some?
    ensures Absent(lines, params) == []
  {
    hide ParamLines;
    hide Last;
    if |params| > 0 {
      AbsentNone(lines, params[1..]);
    }
  }

  /** Finishing twice with the same clock is finishing once. */
  lemma FinishTwice(lines: seq<string>, clock: string)
    requires GoodClock(clock)
    ensures Finish(Finish(lines, clock), clock) == Finish(lines, clock)
  {
    hide ParseParam;
    hide OurParamString;
    hide Finish;
    hide Count;
    var out := Finish(lines, clock);
    forall p | p in OUR_PARAMS
      ensures Count(out, ParamLines(p)) == 1
      ensures forall i :: 0 <= i < |out| && ParamLines(p)(out[i]) ==> out[i] == OurParamString(p, clock)
    {
      OneStampEach(lines, clock, p);
    }
    FinishIsIdentity(out, clock);
  }

  lemma FinishIsClean(lines: seq<string>, clock: string)
    requires GoodClock(clock) && AllClean(lines)
    ensures AllClean(Finish(lines, clock))
  {
    hide ParseParam;
    hide OurParamString;
    hide OwnerOf;
    hide StampStep;
    hide Marks;
    hide Clean;
    hide GoodClock;
    var stamped := StampStep(lines, clock);
    forall i | 0 <= i < |stamped| ensures Clean(stamped[i]) {
      if i < |lines| {
        StampedAt(lines, clock, i);
        if OwnerOf(lines, i).Some? {
          StampLine(OwnerOf(lines, i).value, clock);
        }
      } else {
        var p := AppendedAt(lines, clock, i);
        StampLine(p, clock);
      }
    }
    UnmarkedMembers(stamped, Marks(stamped));
    var out := Finish(lines, clock);
    forall i | 0 <= i < |out| ensures Clean(out[i]) {
      assert out[i] in out;
    }
  }

  /** On lines without our parameters, the end of a run appends the two stamps, in this order. */
  lemma FreshStamps(lines: seq<string>, clock: string)
    requires GoodClock(clock)
    requires forall i, p :: 0 <= i < |lines| && p in OUR_PARAMS ==> !ParamLines(p)(lines[i])
    ensures Finish(lines, clock) ==
            lines + ["timescaledb.last_tuned = '" + clock + "'", "timescaledb.last_tuned_version = '0.19.0'"]
  {
    StampTexts(clock);
    hide ParamLines;
    hide GoodClock;
    hide OurParamString;
    hide ParamLine;
    forall p | p in OUR_PARAMS ensures Last(lines, ParamLines(p)) == None {
      LastIsNone(lines, ParamLines(p));
    }
    var out := lines + [OurParamString(LAST_TUNED, clock), OurParamString(LAST_TUNED_VERSION, clock)];
    OnlyStamps(lines, clock);
    StampStepFresh(lines, clock);
    NothingMarked(out, Marks(out));
    hide Finish;
  }

  lemma StampTexts(clock: string)
    ensures OurParamString(LAST_TUNED, clock) == "timescaledb.last_tuned = '" + clock + "'"
    ensures OurParamString(LAST_TUNED_VERSION, clock) == "timescaledb.last_tuned_version = '0.19.0'"
  {
    OwnNamesDiffer();
    assert LAST_TUNED + " = '" == "timescaledb.last_tuned = '";
    assert LAST_TUNED_VERSION + " = '" + VERSION + "'" == "timescaledb.last_tuned_version = '0.19.0'";
  }

  lemma StampStepFresh(lines: seq<string>, clock: string)
    requires forall p :: p in OUR_PARAMS ==> Last(lines, ParamLines(p)) == None
    ensures StampStep(lines, clock) == lines + [OurParamString(LAST_TUNED, clock), OurParamString(LAST_TUNED_VERSION, clock)]
  {
    hide OurParamString;
    hide ParamLines;
    hide Last;
    assert Restamp(lines, clock) == lines;
    assert OUR_PARAMS[1..] == [LAST_TUNED_VERSION] && [LAST_TUNED_VERSION][1..] == [];
    assert Absent(lines, []) == [];
    assert Absent(lines, [LAST_TUNED_VERSION]) == [LAST_TUNED_VERSION];
    assert Absent(lines, OUR_PARAMS) == [LAST_TUNED, LAST_TUNED_VERSION];
  }

  lemma OnlyStamps(lines: seq<string>, clock: string)
    requires GoodClock(clock)
    requires forall i, p :: 0 <= i < |lines| && p in OUR_PARAMS ==> !ParamLines(p)(lines[i])
    ensures var out := lines + [OurParamString(LAST_TUNED, clock), OurParamString(LAST_TUNED_VERSION, clock)];
            forall i :: 0 <= i < |out| ==> !Superseded(out, i)
  {
    hide ParamLines;
    hide GoodClock;
    hide OurParamString;
    StampKinds(clock);
    var out := lines + [OurParamString(LAST_TUNED, clock), OurParamString(LAST_TUNED_VERSION, clock)];
    assert forall i :: 0 <= i < |lines| ==> out[i] == lines[i];
    LastIs(out, ParamLines(LAST_TUNED), |lines|);
    LastIs(out, ParamLines(LAST_TUNED_VERSION), |lines| + 1);
    hide Last;
  }

  lemma StampKinds(clock: string)
    requires GoodClock(clock)
    ensures var first, second := OurParamString(LAST_TUNED, clock), OurParamString(LAST_TUNED_VERSION, clock);
            ParamLines(LAST_TUNED)(first) && !ParamLines(LAST_TUNED_VERSION)(first) &&
            ParamLines(LAST_TUNED_VERSION)(second) && !ParamLines(LAST_TUNED)(second)
  {
    NamesAreKeyLike();
    OwnNamesDiffer();
    hide KeyLike;
    hide GoodClock;
    hide OurParamString;
    hide ParseParam;
    hide MatchesKey;
    hide IsSharedLine;
    hide Clean;
    StampLine(LAST_TUNED, clock);
    StampLine(LAST_TUNED_VERSION, clock);
    hide LAST_TUNED;
    hide LAST_TUNED_VERSION;
  }
}
