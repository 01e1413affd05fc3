/** The shared_preload_libraries line (shared_preload_libs.go): recognising it and adding the extension. */
module SharedPreloadLibs {
  import opened Text
  import opened Regex
  import opened TuneSettings

  const EXT_NAME := "timescaledb"
  const LIB_KEY := "shared_preload_libraries = '"

  /** shared_preload_libraries = '(.*?)'.* */
  const LibRest := Literal("'", Repeat(Dot, 0, true, Accept))
  const LibEnd := Mark(LibRest)
  const LibValue := Mark(Repeat(Dot, 0, false, LibEnd))
  const LibBody := Mark(Literal(LIB_KEY, LibValue))

  /** (#+?\s*)? and the body; the pattern is not anchored. */
  const LibCommented := Repeat(Hash, 1, false, Repeat(Space, 0, true, LibBody))
  const SharedRegex := Mark(Either(LibCommented, LibBody))

  datatype SharedLibResult =
    SharedLibResult(idx: nat, commented: bool, hasTimescale: bool, commentGroup: string, libs: string)

  /** Capture groups: 0-1 comment marker, 2-3 libraries. */
  function ParseLine(line: string): Option<SharedLibResult> {
    match Search(SharedRegex, line, 0)
    case None => None
    case Some((start, m)) =>
      var group := Group(line, m, 0, 1);
      var libs := Group(line, m, 2, 3);
      Some(SharedLibResult(0, |group| > 0, Contains(libs, EXT_NAME), group, libs))
  }

  predicate IsSharedLine(line: string) {
    ParseLine(line).Some?
  }

  function UpdateLine(line: string, r: SharedLibResult): string {
    var bare := if r.commented then ReplaceFirst(line, r.commentGroup, "") else line;
    if r.hasTimescale then bare
    else
      ReplaceFirst(bare, "= '" + r.libs + "'",
                   "= '" + (if |r.libs| > 0 then r.libs + "," else "") + EXT_NAME + "'")
  }

  /** The library list once the extension is in it. */
  function WithExtension(libs: string): string {
    if Contains(libs, EXT_NAME) then libs else (if |libs| > 0 then libs + "," else "") + EXT_NAME
  }

  // ---------------------------------------------------------------- the pattern, resolved

  /** Where the name must be for a match to start at `i`. */
  function LibStart(s: string, i: nat): (p: nat)
    requires i <= |s|
    ensures i <= p <= |s|
  {
    var h := RunLength(Hash, s, i);
    if h == 0 then i else i + h + RunLength(Space, s, i + h)
  }

  predicate QuoteAt(s: string, q: nat) {
    q < |s| && s[q] == '\''
  }

  /** The first quote in `lo..hi`. */
  function FirstQuote(s: string, lo: nat, hi: nat): (r: Option<nat>)
    requires hi <= |s|
    ensures r.Some? ==> lo <= r.value <= hi && QuoteAt(s, r.value)
    ensures r.Some? ==> forall j :: lo <= j < r.value ==> !QuoteAt(s, j)
    ensures r.None? ==> forall j :: lo <= j <= hi ==> !QuoteAt(s, j)
    decreases if lo <= hi then hi - lo + 1 else 0
  {
    if lo > hi then None else if QuoteAt(s, lo) then Some(lo) else FirstQuote(s, lo + 1, hi)
  }

  /** The end of the library list when the name is at `p`. */
  function LibsEnd(s: string, p: nat): Option<nat>
    requires p <= |s|
  {
    if OccursAt(s, LIB_KEY, p) then
      FirstQuote(s, p + |LIB_KEY|, p + |LIB_KEY| + RunLength(Dot, s, p + |LIB_KEY|))
    else None
  }

  /** The positions recorded by a match that starts at `i` with the name at `p`. */
  function LibMarks(i: nat, p: nat, q: nat): Marks {
    At(i, At(p, At(p + |LIB_KEY|, At(q, NoMarks))))
  }

  lemma ExecLibEnd(s: string, j: nat)
    requires j <= |s|
    ensures Exec(LibEnd, s, j) == if QuoteAt(s, j) then Some(At(j, NoMarks)) else None
  {
    OccursSingle(s, '\'', j);
    var rest := Repeat(Dot, 0, true, Accept);
    StepMark(LibRest, s, j);
    StepLiteral("'", rest, s, j);
    if QuoteAt(s, j) {
      var m := RunLength(Dot, s, j + 1);
      assert Exec(Accept, s, j + 1 + m) == Some(NoMarks);
      StepRepeat(Dot, 0, true, Accept, s, j + 1);
      assert Try(Accept, s, j + 1, 0, m, true) == Some(NoMarks);
    }
  }

  lemma ExecLibBody(s: string, p: nat)
    requires p <= |s|
    ensures Exec(LibBody, s, p) ==
            match LibsEnd(s, p)
            case None => None
            case Some(q) => Some(At(p, At(p + |LIB_KEY|, At(q, NoMarks))))
  {
    hide Exec;
    hide Try;
    hide RunLength;
    hide FirstQuote;
    StepMark(Literal(LIB_KEY, LibValue), s, p);
    StepLiteral(LIB_KEY, LibValue, s, p);
    if OccursAt(s, LIB_KEY, p) {
      var f := p + |LIB_KEY|;
      var m := RunLength(Dot, s, f);
      StepMark(Repeat(Dot, 0, false, LibEnd), s, f);
      StepRepeat(Dot, 0, false, LibEnd, s, f);
      forall j | f <= j <= f + m
        ensures Exec(LibEnd, s, j) == if QuoteAt(s, j) then Some(At(j, NoMarks)) else None
      {
        ExecLibEnd(s, j);
      }
      match FirstQuote(s, f, f + m) {
        case None => NoChoice(LibEnd, s, f, 0, m, false);
        case Some(q) => FirstChoice(LibEnd, s, f, 0, m, q - f);
      }
    }
  }

  lemma LibBodyNeedsKey(s: string, p: nat)
    requires p <= |s| && (p < |s| ==> s[p] != 's')
    ensures Exec(LibBody, s, p).None?
  {
    hide Exec;
    ExecLibBody(s, p);
    if OccursAt(s, LIB_KEY, p) {
      OccursChar(s, LIB_KEY, p, 0);
    }
  }

  lemma ExecSpacedLib(s: string, j: nat)
    requires j <= |s|
    ensures Exec(Repeat(Space, 0, true, LibBody), s, j) == Exec(LibBody, s, j + RunLength(Space, s, j))
  {
    hide Exec;
    hide RunLength;
    forall i | j <= i < |s| && Has(Space, s[i]) ensures Exec(LibBody, s, i).None? {
      LibBodyNeedsKey(s, i);
    }
    SkipRun(Space, 0, true, LibBody, s, j);
  }

  lemma ExecLibCommented(s: string, i: nat)
    requires i <= |s|
    ensures Exec(LibCommented, s, i) ==
            if RunLength(Hash, s, i) == 0 then None else Exec(LibBody, s, LibStart(s, i))
  {
    hide Exec;
    hide RunLength;
    var spaced := Repeat(Space, 0, true, LibBody);
    forall j | i <= j < |s| && Has(Hash, s[j]) ensures Exec(spaced, s, j).None? {
      ExecSpacedLib(s, j);
      RunLengthIs(Space, s, j, 0);
      LibBodyNeedsKey(s, j);
    }
    SkipRun(Hash, 1, false, spaced, s, i);
    ExecSpacedLib(s, i + RunLength(Hash, s, i));
  }

  /** A match can start at `i` exactly when the name and a closing quote follow the comment marker there. */
  lemma ExecShared(s: string, i: nat)
    requires i <= |s|
    ensures Exec(SharedRegex, s, i) ==
            match LibsEnd(s, LibStart(s, i))
            case None => None
            case Some(q) => Some(LibMarks(i, LibStart(s, i), q))
  {
    hide Exec;
    hide RunLength;
    hide LibsEnd;
    StepMark(Either(LibCommented, LibBody), s, i);
    StepEither(LibCommented, LibBody, s, i);
    ExecLibCommented(s, i);
    ExecLibBody(s, LibStart(s, i));
    if RunLength(Hash, s, i) > 0 {
      LibBodyNeedsKey(s, i);
    }
  }

  /** Searching stops at the first position where a match can start. */
  lemma {:induction false} SearchFinds(p: Prog, s: string, from: nat, i: nat)
    requires from <= i <= |s| && Exec(p, s, i).Some?
    requires forall j :: from <= j < i ==> Exec(p, s, j).None?
    ensures Search(p, s, from) == Some((i, Exec(p, s, i).value))
    decreases i - from
  {
    hide Exec;
    if from < i {
      SearchFinds(p, s, from + 1, i);
    }
  }

  lemma {:induction false} SearchResult(p: Prog, s: string, from: nat)
    requires from <= |s|
    ensures match Search(p, s, from)
            case Some((i, m)) => from <= i <= |s| && Exec(p, s, i) == Some(m) && forall j :: from <= j < i ==> Exec(p, s, j).None?
            case None => forall j :: from <= j <= |s| ==> Exec(p, s, j).None?
    decreases |s| - from
  {
    hide Exec;
    if Exec(p, s, from).None? && from < |s| {
      SearchResult(p, s, from + 1);
    }
  }

  // ---------------------------------------------------------------- which lines match

  /** The characters of the name that matter below. */
  lemma LibKeyChars()
    ensures |LIB_KEY| == 28 && LIB_KEY[23] == 's' && LIB_KEY[24] == ' ' && LIB_KEY[25] == '=' && LIB_KEY[26] == ' ' && LIB_KEY[27] == '\''
    ensures forall i :: 0 <= i < 24 ==> !IsSpace(LIB_KEY[i]) && LIB_KEY[i] != '#' && LIB_KEY[i] != '=' && LIB_KEY[i] != '\''
  {
  }

  /** The name occurs at `p` and a quote closes the list at `q`. */
  predicate NameAndQuote(s: string, p: nat, q: nat) {
    OccursAt(s, LIB_KEY, p) && p + |LIB_KEY| <= q && QuoteAt(s, q) && OneLine(s[p + |LIB_KEY|..q])
  }

  lemma LibsEndIff(s: string, p: nat)
    requires p <= |s|
    ensures LibsEnd(s, p).Some? <==> exists q: nat :: NameAndQuote(s, p, q)
  {
    hide RunLength;
    hide FirstQuote;
    var f := p + |LIB_KEY|;
    if LibsEnd(s, p).Some? {
      var q := LibsEnd(s, p).value;
      forall i | 0 <= i < q - f ensures s[f..q][i] != '\n' {
        assert Has(Dot, s[f + i]);
      }
      assert NameAndQuote(s, p, q);
    }
    forall q: nat | NameAndQuote(s, p, q) ensures LibsEnd(s, p).Some? {
      forall j | f <= j < q ensures Has(Dot, s[j]) {
        assert s[j] == s[f..q][j - f];
      }
      RunAtLeast(Dot, s, f, q - f);
    }
  }

  /** A line is a shared-library line exactly when the name and a closing quote occur anywhere in it. */
  lemma SharedIff(s: string)
    ensures IsSharedLine(s) <==> exists p: nat, q: nat :: NameAndQuote(s, p, q)
  {
    hide Exec;
    hide Search;
    hide RunLength;
    hide LibsEnd;
    hide NameAndQuote;
    hide Group;
    SearchResult(SharedRegex, s, 0);
    match Search(SharedRegex, s, 0) {
      case Some((i, m)) =>
        ExecShared(s, i);
        LibsEndIff(s, LibStart(s, i));
      case None =>
        forall p: nat, q: nat | NameAndQuote(s, p, q) ensures false {
          NameStarts(s, p, q);
          LibsEndIff(s, p);
          ExecShared(s, p);
        }
    }
  }

  lemma NameStarts(s: string, p: nat, q: nat)
    requires NameAndQuote(s, p, q)
    ensures p < |s| && LibStart(s, p) == p
  {
    OccursChar(s, LIB_KEY, p, 0);
    RunLengthIs(Hash, s, p, 0);
  }

  // ---------------------------------------------------------------- the line, taken apart

  /** A comment marker as the pattern captures it: nothing, or one or more # and white space. */
  predicate IsGroup(g: string) {
    g == "" || exists h :: 0 < h <= |g| && AllHashes(g[..h]) && AllSpace(g[h..])
  }

  predicate SharedSplit(line: string, before: string, group: string, libs: string, rest: string) {
    IsGroup(group) && '\'' !in libs && OneLine(libs) &&
    line == before + group + LIB_KEY + libs + "'" + rest
  }

  /** The position where the match of a shared-library line starts. */
  function MatchStart(line: string): (i: nat)
    requires IsSharedLine(line)
    ensures i <= |line|
  {
    SearchResult(SharedRegex, line, 0);
    Search(SharedRegex, line, 0).value.0
  }

  /** The line is indented, not preceded by other text, if it is a shared-library line at all. */
  predicate WellPlaced(line: string) {
    IsSharedLine(line) ==> AllSpace(line[..MatchStart(line)])
  }

  lemma GroupAt(s: string, i: nat)
    requires i <= |s|
    ensures IsGroup(s[i..LibStart(s, i)])
  {
    hide RunLength;
    var g, h := s[i..LibStart(s, i)], RunLength(Hash, s, i);
    if h > 0 {
      assert forall k :: 0 <= k < h ==> g[..h][k] == s[i + k] && Has(Hash, s[i + k]);
      assert forall k :: 0 <= k < |g| - h ==> g[h..][k] == s[i + h + k];
      assert AllSpace(g[h..]);
    } else {
      assert g == "";
    }
  }

  lemma NthOfFour(a: nat, b: nat, c: nat, d: nat)
    ensures var m := At(a, At(b, At(c, At(d, NoMarks)))); Nth(m, 0) == a && Nth(m, 1) == b && Nth(m, 2) == c && Nth(m, 3) == d
  {
    var l2 := At(c, At(d, NoMarks));
    var l1 := At(b, l2);
    assert Nth(l2, 1) == d && Nth(l1, 2) == d && Nth(l1, 1) == c;
  }

  /** The fields of the parse result, in terms of the first place where a match can start. */
  lemma ParseAt(s: string, i: nat)
    requires i <= |s| && LibsEnd(s, LibStart(s, i)).Some?
    requires forall j :: 0 <= j < i ==> LibsEnd(s, LibStart(s, j)).None?
    ensures IsSharedLine(s) && MatchStart(s) == i
    ensures var p := LibStart(s, i);
            var q := LibsEnd(s, p).value;
            p + |LIB_KEY| <= q <= |s| &&
            ParseLine(s) == Some(SharedLibResult(0, i < p, Contains(s[p + |LIB_KEY|..q], EXT_NAME), s[i..p], s[p + |LIB_KEY|..q]))
  {
    hide Exec;
    hide Search;
    hide RunLength;
    hide FirstQuote;
    hide Contains;
    hide Nth;
    hide LibStart;
    forall j | 0 <= j < i ensures Exec(SharedRegex, s, j).None? {
      ExecShared(s, j);
    }
    ExecShared(s, i);
    SearchFinds(SharedRegex, s, 0, i);
    var p := LibStart(s, i);
    NthOfFour(i, p, p + |LIB_KEY|, LibsEnd(s, p).value);
  }

  lemma MatchFacts(s: string)
    requires IsSharedLine(s)
    ensures LibsEnd(s, LibStart(s, MatchStart(s))).Some?
    ensures forall j :: 0 <= j < MatchStart(s) ==> LibsEnd(s, LibStart(s, j)).None?
  {
    hide Exec;
    hide Search;
    hide LibsEnd;
    hide LibStart;
    SearchResult(SharedRegex, s, 0);
    ExecShared(s, MatchStart(s));
    forall j | 0 <= j < MatchStart(s) ensures LibsEnd(s, LibStart(s, j)).None? {
      ExecShared(s, j);
    }
  }

  lemma SplitAtQuote(s: string, i: nat)
    requires i <= |s| && LibsEnd(s, LibStart(s, i)).Some?
    ensures var p := LibStart(s, i);
            var f, q := p + |LIB_KEY|, LibsEnd(s, p).value;
            f <= q < |s| && SharedSplit(s, s[..i], s[i..p], s[f..q], s[q + 1..])
  {
    hide RunLength;
    hide FirstQuote;
    hide IsGroup;
    GroupAt(s, i);
    hide LibStart;
    var p := LibStart(s, i);
    var f, q := p + |LIB_KEY|, LibsEnd(s, p).value;
    forall k | 0 <= k < q - f ensures s[f..q][k] != '\n' && s[f..q][k] != '\'' {
      assert Has(Dot, s[f + k]) && !QuoteAt(s, f + k);
    }
    Cut(s, i, p, f, q);
  }

  lemma Cut(s: string, i: nat, p: nat, f: nat, q: nat)
    requires i <= p <= f <= q < |s|
    ensures s == s[..i] + s[i..p] + s[p..f] + s[f..q] + [s[q]] + s[q + 1..]
  {
  }

  /** Every shared-library line comes apart into what its parse result says. */
  lemma SharedSound(s: string) returns (rest: string)
    requires IsSharedLine(s)
    ensures var r := ParseLine(s).value;
            SharedSplit(s, s[..MatchStart(s)], r.commentGroup, r.libs, rest) && r.idx == 0 &&
            r.commented == (r.commentGroup != "") && r.hasTimescale == Contains(r.libs, EXT_NAME)
  {
    hide ParseLine;
    hide LibStart;
    hide LibsEnd;
    hide Contains;
    hide SharedSplit;
    var i := MatchStart(s);
    MatchFacts(s);
    ParseAt(s, i);
    SplitAtQuote(s, i);
    rest := s[LibsEnd(s, LibStart(s, i)).value + 1..];
  }

  lemma SharedIndex(s: string, before: string, group: string, libs: string, rest: string)
    requires SharedSplit(s, before, group, libs, rest)
    ensures var i := |before|;
            var p := i + |group|;
            var f := p + |LIB_KEY|;
            var q := f + |libs|;
            q < |s| && s[..i] == before && s[i..p] == group && s[p..f] == LIB_KEY && s[f..q] == libs && s[q] == '\'' && s[q + 1..] == rest
  {
  }

  lemma SharedSplitFacts(s: string, before: string, group: string, libs: string, rest: string)
    requires SharedSplit(s, before, group, libs, rest)
    ensures IsGroup(group) && '\'' !in libs && OneLine(libs)
  {
  }

  /** An indented shared-library line is parsed into exactly its parts. */
  lemma SharedComplete(s: string, indent: string, group: string, libs: string, rest: string)
    requires SharedSplit(s, indent, group, libs, rest) && AllSpace(indent)
    ensures ParseLine(s) == Some(SharedLibResult(0, group != "", Contains(libs, EXT_NAME), group, libs))
    ensures MatchStart(s) == |indent|
  {
    hide LibsEnd;
    hide LibStart;
    hide ParseLine;
    hide MatchStart;
    hide Contains;
    hide SharedSplit;
    hide IsGroup;
    hide OneLine;
    SharedIndex(s, indent, group, libs, rest);
    SharedSplitFacts(s, indent, group, libs, rest);
    SharedGroupEnd(s, |indent|, group);
    SharedLibsEnd(s, |indent| + |group|, libs);
    NothingStartsIn(s, indent);
    ParseAt(s, |indent|);
  }

  lemma NothingStartsIn(s: string, indent: string)
    requires indent <= s && AllSpace(indent)
    ensures forall j :: 0 <= j < |indent| ==> LibsEnd(s, LibStart(s, j)).None?
  {
    hide LibsEnd;
    hide LibStart;
    forall j | 0 <= j < |indent| ensures LibsEnd(s, LibStart(s, j)).None? {
      SpaceStartsNothing(s, j);
    }
  }

  lemma SpaceStartsNothing(s: string, j: nat)
    requires j < |s| && IsSpace(s[j])
    ensures LibsEnd(s, LibStart(s, j)).None?
  {
    RunLengthIs(Hash, s, j, 0);
    if OccursAt(s, LIB_KEY, j) {
      OccursChar(s, LIB_KEY, j, 0);
    }
  }

  lemma SharedGroupEnd(s: string, i: nat, group: string)
    requires IsGroup(group) && i + |group| + 28 <= |s|
    requires s[i..i + |group|] == group && s[i + |group|..i + |group| + 28] == LIB_KEY
    ensures LibStart(s, i) == i + |group|
  {
    hide RunLength;
    var p := i + |group|;
    assert s[p] == LIB_KEY[0];
    if group == "" {
      RunLengthIs(Hash, s, i, 0);
    } else {
      var h :| 0 < h <= |group| && AllHashes(group[..h]) && AllSpace(group[h..]);
      forall k | i <= k < i + h ensures s[k] == '#' {
        assert s[k] == group[..h][k - i];
      }
      forall k | i + h <= k < p ensures IsSpace(s[k]) {
        assert s[k] == group[h..][k - i - h];
      }
      RunLengthIs(Hash, s, i, h);
      RunLengthIs(Space, s, i + h, |group| - h);
    }
  }

  lemma SharedLibsEnd(s: string, p: nat, libs: string)
    requires p + 28 + |libs| < |s| && s[p..p + 28] == LIB_KEY && s[p + 28..p + 28 + |libs|] == libs
    requires s[p + 28 + |libs|] == '\'' && '\'' !in libs && OneLine(libs)
    ensures LibsEnd(s, p) == Some(p + 28 + |libs|)
  {
    hide RunLength;
    hide FirstQuote;
    var f := p + 28;
    forall k | f <= k < f + |libs| ensures s[k] != '\'' && s[k] != '\n' {
      assert s[k] == libs[k - f];
    }
    RunAtLeast(Dot, s, f, |libs|);
    assert QuoteAt(s, f + |libs|);
  }

  // ---------------------------------------------------------------- adding the extension

  /** What the update is for: comment marker gone, extension in the list, all else kept. */
  function Updated(indent: string, libs: string, rest: string): string {
    indent + "" + LIB_KEY + WithExtension(libs) + "'" + rest
  }

  lemma ExtensionIn(libs: string)
    requires '\'' !in libs && OneLine(libs)
    ensures var w := WithExtension(libs);
            libs <= w && Contains(w, EXT_NAME) && '\'' !in w && OneLine(w)
  {
    if !Contains(libs, EXT_NAME) {
      var w := WithExtension(libs);
      var k := |w| - |EXT_NAME|;
      assert w[k..k + |EXT_NAME|] == EXT_NAME;
      assert OccursAt(w, EXT_NAME, k);
    }
  }

  /** Text that starts with a character foreign to the indentation first occurs after it. */
  lemma ReplaceAfterIndent(head: string, t: string, tail: string, u: string)
    requires |t| > 0 && t[0] !in head
    ensures ReplaceFirst(head + t + tail, t, u) == head + u + tail
  {
    var s := head + t + tail;
    forall j | 0 <= j < |head| ensures s[j] in head {
      assert s[j] == head[j];
    }
    forall j | 0 <= j < |head| ensures !OccursAt(s, t, j) {
      if OccursAt(s, t, j) {
        OccursChar(s, t, j, 0);
      }
    }
    assert s[|head|..|head| + |t|] == t;
    ReplaceAt(s, t, u, |head|);
    assert s[|head| + |t|..] == tail;
  }

  lemma Uncomment(indent: string, group: string, tail: string)
    requires AllSpace(indent) && IsGroup(group) && group != ""
    ensures ReplaceFirst(indent + group + tail, group, "") == indent + tail
  {
    assert group[0] == '#' by {
      var h :| 0 < h <= |group| && AllHashes(group[..h]) && AllSpace(group[h..]);
      assert group[0] == group[..h][0];
    }
    ReplaceAfterIndent(indent, group, tail, "");
    assert indent + "" + tail == indent + tail;
  }

  lemma Regroup(a: string, k: string, x: string, l: string, rest: string)
    ensures a + (k + x) + l + "'" + rest == (a + k) + (x + l + "'") + rest
  {
  }

  lemma AddExtension(indent: string, libs: string, rest: string)
    requires AllSpace(indent)
    ensures ReplaceFirst(indent + LIB_KEY + libs + "'" + rest, "= '" + libs + "'", "= '" + WithExtension(libs) + "'") ==
            Updated(indent, libs, rest)
  {
    hide WithExtension;
    hide ReplaceFirst;
    LibKeyChars();
    var k := LIB_KEY[..25];
    var head := indent + k;
    assert LIB_KEY == k + "= '" && '=' !in k;
    var t, u := "= '" + libs + "'", "= '" + WithExtension(libs) + "'";
    Regroup(indent, k, "= '", libs, rest);
    Regroup(indent, k, "= '", WithExtension(libs), rest);
    ReplaceAfterIndent(head, t, rest, u);
    assert indent + "" == indent;
  }

  /** The update of an indented shared-library line: exactly the marker and the list change. */
  lemma UpdateSplit(s: string, indent: string, group: string, libs: string, rest: string)
    requires SharedSplit(s, indent, group, libs, rest) && AllSpace(indent)
    ensures IsSharedLine(s) && UpdateLine(s, ParseLine(s).value) == Updated(indent, libs, rest)
  {
    hide Contains;
    hide ReplaceFirst;
    SharedComplete(s, indent, group, libs, rest);
    hide ParseLine;
    var tail := LIB_KEY + libs + "'" + rest;
    var bare := indent + LIB_KEY + libs + "'" + rest;
    assert s == indent + group + tail && bare == indent + tail by { Reassociate(indent, group, libs, rest); }
    if group != "" {
      Uncomment(indent, group, tail);
    } else {
      assert indent + "" == indent;
    }
    if !Contains(libs, EXT_NAME) {
      AddExtension(indent, libs, rest);
      ExtensionText(libs);
    } else {
      assert indent + "" == indent;
    }
  }

  lemma Reassociate(indent: string, group: string, libs: string, rest: string)
    ensures indent + group + LIB_KEY + libs + "'" + rest == indent + group + (LIB_KEY + libs + "'" + rest)
    ensures indent + LIB_KEY + libs + "'" + rest == indent + (LIB_KEY + libs + "'" + rest)
  {
  }

  lemma ExtensionText(libs: string)
    requires !Contains(libs, EXT_NAME)
    ensures "= '" + (if |libs| > 0 then libs + "," else "") + EXT_NAME + "'" == "= '" + WithExtension(libs) + "'"
  {
    assert "= '" + (libs + "," + EXT_NAME) + "'" == "= '" + (libs + ",") + EXT_NAME + "'";
    assert "= '" + ("" + EXT_NAME) + "'" == "= '" + "" + EXT_NAME + "'";
  }

  /**
    Updating an indented shared-library line: indentation and tail stay, the old list is a prefix of
    the new one, and the result is read as active and holding the extension, so that updating it
    again changes nothing.
   */
  lemma UpdateLibraries(s: string) returns (rest: string)
    requires IsSharedLine(s) && WellPlaced(s)
    ensures var r := ParseLine(s).value;
            var indent := s[..MatchStart(s)];
            var u := UpdateLine(s, r);
            && SharedSplit(s, indent, r.commentGroup, r.libs, rest)
            && u == Updated(indent, r.libs, rest)
            && SharedSplit(u, indent, "", WithExtension(r.libs), rest)
            && r.libs <= WithExtension(r.libs)
            && ParseLine(u) == Some(SharedLibResult(0, false, true, "", WithExtension(r.libs)))
            && WellPlaced(u)
            && UpdateLine(u, ParseLine(u).value) == u
  {
    hide Contains;
    hide ParseLine;
    hide UpdateLine;
    hide MatchStart;
    hide SharedSplit;
    rest := SharedSound(s);
    var r, indent := ParseLine(s).value, s[..MatchStart(s)];
    UpdateSplit(s, indent, r.commentGroup, r.libs, rest);
    UpdatedSplit(indent, r.commentGroup, r.libs, rest, s);
    var u, w := Updated(indent, r.libs, rest), WithExtension(r.libs);
    SharedComplete(u, indent, "", w, rest);
    UpdateSplit(u, indent, "", w, rest);
    hide WithExtension;
    assert u[..|indent|] == indent;
  }

  lemma UpdatedSplit(indent: string, group: string, libs: string, rest: string, s: string)
    requires SharedSplit(s, indent, group, libs, rest)
    ensures var u, w := Updated(indent, libs, rest), WithExtension(libs);
            SharedSplit(u, indent, "", w, rest) && libs <= w && Contains(w, EXT_NAME) && WithExtension(w) == w &&
            Updated(indent, w, rest) == u && |indent| <= |u| && u[..|indent|] == indent
  {
    hide Contains;
    ExtensionIn(libs);
  }

  /** The update leaves an indented line alone exactly when it is active and has the extension. */
  lemma UpdateIsIdentityIff(s: string)
    requires IsSharedLine(s) && WellPlaced(s)
    ensures var r := ParseLine(s).value;
            UpdateLine(s, r) == s <==> !r.commented && r.hasTimescale
  {
    hide Contains;
    hide ParseLine;
    hide WellPlaced;
    var _ := UpdateLibraries(s);
  }
}
