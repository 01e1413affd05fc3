/** Lines with some room left in the scanner's buffer stay within it, so that texts can be run twice. */
module Room {
  import opened Text
  import opened Lines
  import opened Changes
  import opened TuneSettings
  import opened LineGrammar
  import opened SharedPreloadLibs
  import opened PgBytes
  import opened PgTune
  import opened Tuning
  import opened Recommendations
  import opened StaleIndex
  import opened Acceptance
  import opened Settling
  import opened Finishing
  import opened Runs
  import opened Prompting
  import opened Decisions
  import opened Theorems

  /** More than a run adds to a line. */
  const ROOM := 64

  predicate HasRoom(line: string) {
    |line| + ROOM < MAX_TOKEN
  }

  predicate AllHaveRoom(lines: seq<string>) {
    forall i :: 0 <= i < |lines| ==> HasRoom(lines[i])
  }

  // ---------------------------------------------------------------- what a run adds

  lemma AmountIsShort(bytes: nat)
    requires 1 <= bytes < UINT64_LIMIT
    ensures |BytesToPGFormat(bytes)| <= 22
  {
    RoundedSize(bytes);
    CountIsNumeral(Rounded(bytes).count);
    DecimalIsShort(Rounded(bytes).count);
    hide Decimal;
  }

  lemma DecimalIsShort(n: nat)
    requires n < UINT64_LIMIT
    ensures |Decimal(n)| <= 20
  {
    Tens();
    DecimalLength(n, 20);
  }

  lemma SignedIsShort(n: int)
    requires -INT64_LIMIT <= n < INT64_LIMIT
    ensures |Signed(n)| <= 21
  {
    DecimalIsShort(if n < 0 then -n else n);
    hide Decimal;
  }

  lemma RecommendationIsShort(r: Recommender, key: string)
    requires Guard(r, key) && InWidth(r)
    ensures |Recommend(r, key)| <= 22
  {
    hide BytesToPGFormat;
    hide Decimal;
    if BytesFor(r, key).Some? {
      AmountIsShort(BytesFor(r, key).value);
    } else {
      match r
      case Parallel(cpus, workers) =>
        hide BytesFor;
        SignedIsShort(Int64(3 + workers + cpus));
        hide Signed;
        hide Int64;
        DecimalIsShort(cpus);
        DecimalIsShort((cpus + 1) / 2);
        DecimalIsShort(workers);
      case Misc(m, conns, version) =>
        hide BytesFor;
        DecimalIsShort(if conns != 0 then conns else GetMaxConns(m));
      case _ =>
        hide BytesFor;
    }
  }

  lemma NamesAreShort()
    ensures forall k :: k in ALL_KEYS ==> |k| <= 34
    ensures forall p :: p in OUR_PARAMS ==> |p| <= 34
  {
    assert forall i :: 0 <= i < |KEY_TABLE| ==> |KEY_TABLE[i]| <= 34;
    forall k | k in ALL_KEYS ensures k in KEY_TABLE {
    }
  }

  lemma ReplaceLength(s: string, t: string, u: string)
    ensures |ReplaceFirst(s, t, u)| <= |s| + if |u| > |t| then |u| - |t| else 0
  {
    hide OccursAt;
    if IndexFrom(s, t, 0).Some? {
      OccursInside(s, t, IndexFrom(s, t, 0).value);
    }
  }

  lemma OccursInside(s: string, t: string, i: nat)
    requires OccursAt(s, t, i)
    ensures i + |t| <= |s|
  {
  }

  lemma UpdateLength(line: string, r: SharedLibResult)
    ensures |UpdateLine(line, r)| <= |line| + 12
  {
    var bare := if r.commented then ReplaceFirst(line, r.commentGroup, "") else line;
    ReplaceLength(line, r.commentGroup, "");
    ReplaceLength(bare, "= '" + r.libs + "'", "= '" + (if |r.libs| > 0 then r.libs + "," else "") + EXT_NAME + "'");
    hide ReplaceFirst;
  }

  // ---------------------------------------------------------------- every line of a run fits

  lemma TunableFits(k: string, v: string, extra: string, line: string)
    requires |k| <= 34 && |v| <= 22 && |extra| <= |line| && HasRoom(line)
    ensures Fits(TunableLine(k, v, extra))
  {
  }

  lemma FoundTail(lines: seq<string>, k: string)
    requires k in ALL_KEYS && FindKey(lines, k).Some?
    ensures var r := FindKey(lines, k).value; r.idx < |lines| && |r.extra| <= |lines[r.idx]|
  {
    hide FindKey;
    hide MatchesKey;
    hide ParseKey;
    hide KeyLike;
    hide IsTail;
    NamesAreKeyLike();
    FindKeyFacts(lines, k);
    hide ALL_KEYS;
    MatchedShape(lines[FindKey(lines, k).value.idx], k);
  }

  /** Before stamping. */
  lemma WrittenFit(lines: seq<string>, cur: seq<string>, w: map<string, string>)
    requires Wrote(lines, Based(lines), cur, w) && AllHaveRoom(lines)
    requires forall k :: k in w ==> |w[k]| <= 22
    ensures AllFit(cur)
  {
    hide FindKey;
    hide FindShared;
    hide Changed;
    hide TunableLine;
    hide UpdateLine;
    NamesAreShort();
    BasedFit(lines);
    hide Based;
    hide SetShared;
    forall j | 0 <= j < |cur| ensures Fits(cur[j]) {
      if j >= |Based(lines)| {
        assert Appended(lines, w, cur[j]);
        var k :| k in w && FindKey(lines, k).None? && cur[j] == TunableLine(k, w[k], "");
        assert k in ALL_KEYS;
        TunableFits(k, w[k], "", "");
      } else if cur[j] != Based(lines)[j] {
        assert Assigned(lines, w, j);
        var k :| k in w && FindKey(lines, k).Some? && FindKey(lines, k).value.idx == j;
        assert k in ALL_KEYS;
        FoundTail(lines, k);
        TunableFits(k, w[k], FindKey(lines, k).value.extra, lines[j]);
      }
    }
  }

  lemma BasedFit(lines: seq<string>)
    requires AllHaveRoom(lines)
    ensures AllFit(Based(lines))
  {
    hide FindShared;
    hide UpdateLine;
    FindSharedFacts(lines);
    if FindShared(lines).Some? {
      UpdateLength(lines[FindShared(lines).value.idx], FindShared(lines).value);
    }
  }

  lemma StampFits(param: string, clock: string)
    requires param in OUR_PARAMS && HasRoom(clock)
    ensures Fits(OurParamString(param, clock))
  {
    NamesAreShort();
  }

  lemma FinishFits(cur: seq<string>, clock: string)
    requires AllFit(cur) && HasRoom(clock)
    ensures AllFit(Finish(cur, clock))
  {
    hide OwnerOf;
    hide OurParamString;
    hide StampStep;
    hide Marks;
    hide Fits;
    hide HasRoom;
    hide ParamLines;
    hide Last;
    var full := StampStep(cur, clock);
    StampLength(cur, clock);
    forall j | 0 <= j < |full| ensures Fits(full[j]) {
      if j < |cur| {
        StampedAt(cur, clock, j);
        if OwnerOf(cur, j).Some? {
          StampFits(OwnerOf(cur, j).value, clock);
        }
      } else {
        var p := AppendedAt(cur, clock, j);
        StampFits(p, clock);
      }
    }
    UnmarkedMembers(full, Marks(full));
    var out := Finish(cur, clock);
    forall i | 0 <= i < |out| ensures Fits(out[i]) {
      assert out[i] in out;
    }
  }

  lemma WritesAreShort(lines: seq<string>, c: SystemConfig, p: Profile, env: Env, f: Flags, input: string)
    requires AllSafe(Groups(c, p, env.linux)) && Accepted(c)
    ensures var w := Writes(lines, c, p, env, f, input); forall k :: k in w ==> |w[k]| <= 22
  {
    hide Groups;
    hide Chosen;
    hide Writes;
    hide Recommend;
    hide DecideIn;
    hide TuneIndex;
    hide InWidth;
    WritesIff(lines, c, p, env, f, input);
    GroupsInWidth(c, p, env.linux);
    var w := Writes(lines, c, p, env, f, input);
    forall k | k in w ensures |w[k]| <= 22 {
      var g :| g in Chosen(lines, c, p, env, f, input) && Proposed(g, TuneIndex(lines), env.numeric, k);
      RecommendationIsShort(g.recommender, k);
    }
  }

  /** Lines with room are written as lines that fit. */
  lemma RoomIsEnough(lines: seq<string>, c: SystemConfig, p: Profile, env: Env, f: Flags, input: string, out: seq<string>)
    requires AllSafe(Groups(c, p, env.linux)) && Accepted(c) && AllHaveRoom(lines) && HasRoom(env.clock)
    requires Run(lines, c, p, env, f, input) == Written(out)
    ensures AllFit(out)
  {
    hide AllSafe;
    hide Groups;
    hide TuneStep;
    hide Writes;
    hide Finish;
    hide Wrote;
    hide Based;
    hide AllFit;
    hide AllHaveRoom;
    hide HasRoom;
    hide Agree;
    hide AllClean;
    hide Tracks;
    var base := RunKeeps(lines, c, p, env, f, input);
    WritesAreShort(lines, c, p, env, f, input);
    var done := TuneStep(lines, c, p, env, f, input).s.lines;
    WrittenFit(lines, done, Writes(lines, c, p, env, f, input));
    FinishFits(done, env.clock);
  }

  /**
    Running on a text, and again on the text that was written: the second run writes the same text, or
    is refused at a question, as it cannot be when quiet, with --yes, or with enough yeses in its input.
   */
  lemma SecondTextIsTheSame(text: string, c: SystemConfig, p: Profile, env: Env, f: Flags, input: string, out: seq<string>,
                            f2: Flags, input2: string)
    requires AllSafe(Groups(c, p, env.linux)) && Accepted(c) && GoodClock(env.clock) && HasRoom(env.clock)
    requires WellFormed(ScanLines(text)) && AllHaveRoom(ScanLines(text))
    requires AcceptedRun(ScanLines(text), c, p, env, f, input, out)
    ensures RunText(text, c, p, env, f, input) == Output(WriteText(out))
    ensures match RunText(WriteText(out), c, p, env, f2, input2)
            case Output(again) => again == WriteText(out)
            case Error(why) => !f2.quiet && !f2.yesAlways && why != ParseProblem
    ensures Ready(f2, input2, MOST_QUESTIONS) ==> RunText(WriteText(out), c, p, env, f2, input2) == Output(WriteText(out))
  {
    hide AllSafe;
    hide Groups;
    hide Run;
    hide GoodClock;
    hide WellFormed;
    hide AllHaveRoom;
    hide HasRoom;
    hide AllFit;
    hide Ready;
    hide Passed;
    hide ScanLines;
    hide WriteText;
    hide Chosen;
    var lines := ScanLines(text);
    SecondRunChangesNothing(lines, c, p, env, f, input, out, f2, input2);
    RoomIsEnough(lines, c, p, env, f, input, out);
  }
}
