/**
  What a run of the tuner does to the lines of a file (tuner.go and config_file.go), as functions
  on values.  The methods of module Tuner are proved to compute these functions.
 */
module Tuning {
  import opened Text
  import opened Lines
  import opened TuneSettings
  import opened LineGrammar
  import opened SharedPreloadLibs
  import opened PgTune
  import PgTime

  // ---------------------------------------------------------------- the index of a file

  const ALL_KEYS: set<string> := set k | k in MEMORY_KEYS + PARALLEL_KEYS + WAL_KEYS + MISC_KEYS + BGWRITER_KEYS

  /** Lines of the shared-library kind are not looked at for parameters. */
  predicate MatchesKey(line: string, key: string) {
    !IsSharedLine(line) && ParseKey(line, key).Some?
  }

  function KeyLines(key: string): string -> bool {
    line => MatchesKey(line, key)
  }

  function SharedLines(): string -> bool {
    line => IsSharedLine(line)
  }

  function ParamLines(param: string): string -> bool {
    line => ParseParam(line, param).Some?
  }

  /** The parse result of the last line of a parameter, with its position. */
  function FindKey(lines: seq<string>, key: string): (r: Option<ParseResult>)
    ensures r.Some? ==> r.value.idx < |lines|
  {
    match Last(lines, KeyLines(key))
    case None => None
    case Some(i) => Some(ParseKey(lines[i], key).value.(idx := i))
  }

  function FindShared(lines: seq<string>): (r: Option<SharedLibResult>)
    ensures r.Some? ==> r.value.idx < |lines|
  {
    match Last(lines, SharedLines())
    case None => None
    case Some(i) => Some(ParseLine(lines[i]).value.(idx := i))
  }

  /** The index getConfigFileState builds. */
  function TuneIndex(lines: seq<string>): map<string, ParseResult> {
    map k | k in ALL_KEYS && FindKey(lines, k).Some? :: FindKey(lines, k).value
  }

  function Lookup(tune: map<string, ParseResult>, key: string): Option<ParseResult> {
    if key in tune then Some(tune[key]) else None
  }

  /** Every stored position is a position of `lines`. */
  predicate InRange(tune: map<string, ParseResult>, lines: seq<string>) {
    forall k :: k in tune ==> tune[k].idx < |lines|
  }

  // ---------------------------------------------------------------- which settings are shown

  /** What lies outside the program: strconv.ParseFloat, the clock, and the operating system. */
  datatype Env = Env(numeric: string -> Option<Float>, clock: string, linux: bool)

  /** isCloseEnough with a fudge factor of 0.05; a zero target is close to nothing. */
  predicate CloseEnough(actual: Float, target: Float) {
    actual.Finite? && target.Finite? && target.x != 0.0 &&
    PgTime.Abs(target.x - actual.x) <= 0.05 * PgTime.Abs(target.x)
  }

  datatype Verdict = Keep | Show | Fail

  /** checkIfShouldShowSetting for one key: a commented line that parses is still compared. */
  function Decide(found: Option<ParseResult>, rec: string, parser: FloatParser, numeric: string -> Option<Float>, key: string): Verdict {
    match found
    case None => Show
    case Some(r) =>
      if rec == NO_RECOMMENDATION then Keep
      else if !r.commented && r.value == rec then Keep
      else
        match ParseFloat(parser, numeric, key, r.value)
        case None => Show
        case Some(curr) =>
          match ParseFloat(parser, numeric, key, rec)
          case None => Fail
          case Some(target) => if r.commented || !CloseEnough(curr, target) then Show else Keep
  }

  function DecideFor(r: Recommender, tune: map<string, ParseResult>, numeric: string -> Option<Float>, key: string): Verdict
    requires Guard(r, key)
  {
    Decide(Lookup(tune, key), Recommend(r, key), GetFloatParser(r), numeric, key)
  }

  function DecideIn(g: SettingsGroup, tune: map<string, ParseResult>, numeric: string -> Option<Float>, key: string): Verdict
    requires Guard(g.recommender, key)
  {
    DecideFor(g.recommender, tune, numeric, key)
  }

  /** The keys of the group whose recommendation is written, in order. */
  ghost function Rewritten(g: SettingsGroup, keys: seq<string>, tune: map<string, ParseResult>, numeric: string -> Option<Float>): seq<string>
    requires Safe(g.recommender)
  {
    if |keys| == 0 then []
    else
      var rest := Rewritten(g, keys[1..], tune, numeric);
      if DecideIn(g, tune, numeric, keys[0]) == Show && Recommend(g.recommender, keys[0]) != NO_RECOMMENDATION
      then [keys[0]] + rest else rest
  }

  // ---------------------------------------------------------------- rewriting lines

  function SetKey(lines: seq<string>, key: string, found: Option<ParseResult>, rec: string): (r: seq<string>)
    requires found.Some? ==> found.value.idx < |lines|
    ensures |lines| <= |r|
  {
    match found
    case None => lines + [TunableLine(key, rec, "")]
    case Some(r) => lines[r.idx := TunableLine(r.key, rec, r.extra)]
  }

  ghost function SetKeys(lines: seq<string>, g: SettingsGroup, keys: seq<string>, tune: map<string, ParseResult>): (r: seq<string>)
    requires Safe(g.recommender) && InRange(tune, lines)
    ensures |lines| <= |r|
    decreases keys
  {
    if |keys| == 0 then lines
    else
      SetKeys(SetKey(lines, keys[0], Lookup(tune, keys[0]), Recommend(g.recommender, keys[0])), g, keys[1..], tune)
  }

  // ---------------------------------------------------------------- prompts

  datatype Answer = Yes | Skip | No | NoInput
  datatype Checker = YesNo | SkipQuit

  /** What strings.TrimSpace trims: the vertical tab too. */
  predicate IsWhite(c: char) {
    IsSpace(c) || c == '\U{000B}'
  }

  function TrimSpace(s: string): string {
    TrimRight(TrimLeft(s, IsWhite), IsWhite)
  }

  /** The checkers; None means the question is asked again. */
  function Check(c: Checker, r: string): Option<Answer> {
    match c
    case YesNo =>
      if r == "n" || r == "no" then Some(No)
      else if r == "y" || r == "yes" then Some(Yes)
      else None
    case SkipQuit =>
      if r == "q" || r == "quit" || r == "n" || r == "no" then Some(No)
      else if r == "y" || r == "yes" then Some(Yes)
      else if r == "s" || r == "skip" then Some(Skip)
      else None
  }

  /** The verdict on one line of input. */
  function Response(c: Checker, line: string): Option<Answer> {
    Check(c, Lower(TrimSpace(line)))
  }

  /** Asking until a line decides; input without a final line feed is an error. */
  function AskInput(input: string, c: Checker): (r: (Answer, string))
    ensures |r.1| <= |input|
    decreases |input|
  {
    match IndexFrom(input, "\n", 0)
    case None => (NoInput, "")
    case Some(i) =>
      match Response(c, input[..i + 1])
      case None => AskInput(input[i + 1..], c)
      case Some(a) => (a, input[i + 1..])
  }

  datatype Flags = Flags(quiet: bool, yesAlways: bool)

  function Ask(f: Flags, input: string, c: Checker): (Answer, string) {
    if f.yesAlways then (Yes, input) else AskInput(input, c)
  }

  // ---------------------------------------------------------------- the steps of a run

  datatype Reason = ParseProblem | Declined | InputEnded

  /** Lines so far, input not yet read, and writes counted by the quiet-mode writer. */
  datatype Session = Session(lines: seq<string>, input: string, writes: nat)

  datatype Step = Go(s: Session) | Halt(why: Reason, at: Session)
  {
    function State(): Session {
      if Go? then s else at
    }
  }

  function Refusal(a: Answer): Reason {
    if a == NoInput then InputEnded else Declined
  }

  ghost predicate SomeFail(g: SettingsGroup, tune: map<string, ParseResult>, numeric: string -> Option<Float>)
    requires Safe(g.recommender)
  {
    exists k :: k in g.keys && DecideIn(g, tune, numeric, k) == Fail
  }

  ghost predicate SomeShown(g: SettingsGroup, tune: map<string, ParseResult>, numeric: string -> Option<Float>)
    requires Safe(g.recommender)
  {
    exists k :: k in g.keys && DecideIn(g, tune, numeric, k) == Show
  }

  /** processSettingsGroup */
  ghost function GroupStep(g: SettingsGroup, tune: map<string, ParseResult>, env: Env, f: Flags, s: Session): (r: Step)
    requires Safe(g.recommender) && InRange(tune, s.lines)
    ensures |s.lines| <= |r.State().lines|
  {
    if SomeFail(g, tune, env.numeric) then Halt(ParseProblem, s)
    else if !SomeShown(g, tune, env.numeric) then Go(s)
    else
      var keys := Rewritten(g, g.keys, tune, env.numeric);
      if f.quiet then Go(s.(lines := SetKeys(s.lines, g, keys, tune), writes := s.writes + |keys|))
      else
        var (a, rest) := Ask(f, s.input, SkipQuit);
        if a == Yes then Go(s.(lines := SetKeys(s.lines, g, keys, tune), input := rest))
        else if a == Skip then Go(s.(input := rest))
        else Halt(Refusal(a), s.(input := rest))
  }

  ghost predicate AllSafe(groups: seq<SettingsGroup>) {
    forall g :: g in groups ==> IsAvailable(g.recommender) ==> Safe(g.recommender)
  }

  /** processTunables */
  ghost function TunablesStep(groups: seq<SettingsGroup>, tune: map<string, ParseResult>, env: Env, f: Flags, s: Session): (r: Step)
    requires AllSafe(groups) && InRange(tune, s.lines)
    ensures |s.lines| <= |r.State().lines|
    decreases groups
  {
    if |groups| == 0 then Go(s)
    else if !IsAvailable(groups[0].recommender) then TunablesStep(groups[1..], tune, env, f, s)
    else
      var r := GroupStep(groups[0], tune, env, f, s);
      if r.Halt? then r else TunablesStep(groups[1..], tune, env, f, r.s)
  }

  const PLAIN_SHARED_LINE := LIB_KEY + EXT_NAME + "'"
  const SHARED_COMMENT := "\t# (change requires restart)"
  const PLAIN_SHARED_LINE_WITH_COMMENTS := PLAIN_SHARED_LINE + SHARED_COMMENT

  /** The lines once the extension is in the selected line, or in a new one. */
  function SetShared(lines: seq<string>, found: Option<SharedLibResult>): (r: seq<string>)
    requires found.Some? ==> found.value.idx < |lines|
    ensures |lines| <= |r|
  {
    match found
    case None => lines + [PLAIN_SHARED_LINE]
    case Some(r) => lines[r.idx := UpdateLine(lines[r.idx], r)]
  }

  /** processSharedLibLine: a question is asked only if something would change. */
  function SharedStep(found: Option<SharedLibResult>, f: Flags, s: Session): (r: Step)
    requires found.Some? ==> found.value.idx < |s.lines|
    ensures |s.lines| <= |r.State().lines|
  {
    var lines := SetShared(s.lines, found);
    if lines == s.lines then Go(s)
    else
      var (a, rest) := Ask(f, s.input, YesNo);
      if a == Yes then Go(s.(lines := lines, input := rest)) else Halt(Refusal(a), s.(input := rest))
  }

  /** The interactive branch of Run: refusing to tune skips the settings but not the rest. */
  ghost function InteractiveStep(groups: seq<SettingsGroup>, found: Option<SharedLibResult>, tune: map<string, ParseResult>,
                                 env: Env, f: Flags, s: Session): (r: Step)
    requires AllSafe(groups) && InRange(tune, s.lines)
    requires found.Some? ==> found.value.idx < |s.lines|
    ensures |s.lines| <= |r.State().lines|
  {
    var shared := SharedStep(found, f, s);
    if shared.Halt? then shared
    else
      var (a, rest) := Ask(f, shared.s.input, YesNo);
      var s' := shared.s.(input := rest);
      if a == Yes then TunablesStep(groups, tune, env, f, s')
      else if a == No then Go(s')
      else Halt(Refusal(a), s')
  }

  /** processQuiet: everything is rewritten first, and one question asked if anything was printed. */
  ghost function QuietStep(groups: seq<SettingsGroup>, found: Option<SharedLibResult>, tune: map<string, ParseResult>,
                           env: Env, f: Flags, s: Session): (r: Step)
    requires AllSafe(groups) && InRange(tune, s.lines)
    requires found.Some? ==> found.value.idx < |s.lines|
    ensures |s.lines| <= |r.State().lines|
  {
    var lines := SetShared(s.lines, found);
    var r := TunablesStep(groups, tune, env, f, s.(lines := lines, writes := if lines == s.lines then 0 else 1));
    if r.Halt? || r.s.writes == 0 then r
    else
      var (a, rest) := Ask(f, r.s.input, YesNo);
      if a == Yes then Go(r.s.(input := rest)) else Halt(Refusal(a), r.s.(input := rest))
  }

  // ---------------------------------------------------------------- our own parameters

  const LAST_TUNED := "timescaledb.last_tuned"
  const LAST_TUNED_VERSION := "timescaledb.last_tuned_version"
  const OUR_PARAMS := [LAST_TUNED, LAST_TUNED_VERSION]
  const VERSION := "0.19.0"

  function OurParamString(param: string, clock: string): string {
    ParamLine(param, if param == LAST_TUNED then clock else VERSION)
  }

  /** The parameter whose last line is line `i`. */
  function OwnerOf(lines: seq<string>, i: nat): Option<string> {
    if Last(lines, ParamLines(LAST_TUNED)) == Some(i) then Some(LAST_TUNED)
    else if Last(lines, ParamLines(LAST_TUNED_VERSION)) == Some(i) then Some(LAST_TUNED_VERSION)
    else None
  }

  function Restamp(lines: seq<string>, clock: string): (r: seq<string>)
    ensures |r| == |lines|
  {
    seq(|lines|, i requires 0 <= i < |lines| =>
      match OwnerOf(lines, i)
      case Some(p) => OurParamString(p, clock)
      case None => lines[i])
  }

  /** The parameters that have no line yet. */
  function Absent(lines: seq<string>, params: seq<string>): seq<string> {
    if |params| == 0 then []
    else (if Last(lines, ParamLines(params[0])).None? then [params[0]] else []) + Absent(lines, params[1..])
  }

  function Stamps(params: seq<string>, clock: string): seq<string> {
    seq(|params|, i requires 0 <= i < |params| => OurParamString(params[i], clock))
  }

  /** processOurParams */
  function StampStep(lines: seq<string>, clock: string): seq<string> {
    Restamp(lines, clock) + Stamps(Absent(lines, OUR_PARAMS), clock)
  }

  /** A line the duplicate removers mark: a line of one of our parameters, but not its last. */
  predicate Superseded(lines: seq<string>, i: nat)
    requires i < |lines|
  {
    exists p :: p in OUR_PARAMS && ParamLines(p)(lines[i]) && Last(lines, ParamLines(p)) != Some(i)
  }

  function Marks(lines: seq<string>): (m: seq<bool>)
    ensures |m| == |lines|
  {
    seq(|lines|, i requires 0 <= i < |lines| => Superseded(lines, i))
  }

  /** The lines written at the end of a run. */
  function Finish(lines: seq<string>, clock: string): seq<string> {
    var stamped := StampStep(lines, clock);
    Unmarked(stamped, Marks(stamped))
  }

  // ---------------------------------------------------------------- a whole run

  function Groups(c: SystemConfig, p: Profile, linux: bool): seq<SettingsGroup> {
    seq(|TUNABLES|, i requires 0 <= i < |TUNABLES| => GetSettingsGroup(TUNABLES[i], c, p, linux))
  }

  datatype Outcome = Written(lines: seq<string>) | Stopped(why: Reason)

  lemma IndexInRange(lines: seq<string>)
    ensures InRange(TuneIndex(lines), lines)
  {
  }

  /** The lines after the questions, or the reason the run stopped before writing anything. */
  ghost function TuneStep(lines: seq<string>, c: SystemConfig, p: Profile, env: Env, f: Flags, input: string): Step
    requires AllSafe(Groups(c, p, env.linux))
  {
    IndexInRange(lines);
    var s := Session(lines, input, 0);
    var groups := Groups(c, p, env.linux);
    if f.quiet then QuietStep(groups, FindShared(lines), TuneIndex(lines), env, f, s)
    else InteractiveStep(groups, FindShared(lines), TuneIndex(lines), env, f, s)
  }

  /** Run, from the scanned lines to the written ones. */
  ghost function Run(lines: seq<string>, c: SystemConfig, p: Profile, env: Env, f: Flags, input: string): Outcome
    requires AllSafe(Groups(c, p, env.linux))
  {
    match TuneStep(lines, c, p, env, f, input)
    case Halt(why, _) => Stopped(why)
    case Go(s) => Written(Finish(s.lines, env.clock))
  }

  datatype RunResult = Output(text: string) | Error(why: Reason)

  /** Run, from the text of a file to the text written in its place. */
  ghost function RunText(text: string, c: SystemConfig, p: Profile, env: Env, f: Flags, input: string): RunResult
    requires AllSafe(Groups(c, p, env.linux))
  {
    match Run(ScanLines(text), c, p, env, f, input)
    case Written(lines) => Output(WriteText(lines))
    case Stopped(why) => Error(why)
  }
}
