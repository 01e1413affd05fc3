/**
  Exactly when updating a shared-library line does what it is for.  The pattern is not anchored and
  strings.Replace takes the first occurrence in the whole line, so text before the match can get in
  the way; these lemmas say which text does.
 */
module SharedPlacement {
  import opened Text
  import opened Regex
  import opened TuneSettings
  import opened SharedPreloadLibs

  /** The text ends in # and white space. */
  predicate TrailingMark(t: string) {
    exists k :: 0 <= k < |t| && t[k] == '#' && AllSpace(t[k + 1..])
  }

  /** The parts of a shared-library line around its marker, and the list of libraries. */
  predicate Parts(s: string, before: string, group: string, libs: string, rest: string) {
    SharedSplit(s, before, group, libs, rest) && OneLine(s) && IsSharedLine(s) && MatchStart(s) == |before|
  }

  predicate NoNameIn(s: string, n: nat) {
    forall k :: 0 <= k < n ==> !OccursAt(s, LIB_KEY, k)
  }

  /** In a line of one match and no line feed, the name does not occur before the match. */
  lemma NoNameBefore(s: string, before: string, group: string, libs: string, rest: string)
    requires Parts(s, before, group, libs, rest)
    ensures NoNameIn(s, |before|)
  {
    hide LibsEnd;
    hide LibStart;
    hide MatchStart;
    hide ParseLine;
    SharedIndex(s, before, group, libs, rest);
    hide SharedSplit;
    MatchFacts(s);
    var p := |before| + |group|;
    forall k | 0 <= k < |before| ensures !OccursAt(s, LIB_KEY, k) {
      if OccursAt(s, LIB_KEY, k) {
        LibKeyChars();
        NameThenQuote(s, k, p);
        NameStarts(s, k, p + 27);
        LibsEndIff(s, k);
      }
    }
  }

  lemma NameThenQuote(s: string, k: nat, p: nat)
    requires OneLine(s) && OccursAt(s, LIB_KEY, k) && k < p && p + 28 <= |s| && s[p..p + 28] == LIB_KEY
    ensures NameAndQuote(s, k, p + 27)
  {
    LibKeyChars();
    assert s[p + 27] == LIB_KEY[27];
  }

  /** No proper suffix of the name with its quote is a prefix of it. */
  lemma NamesDoNotOverlap(s: string, k: nat, n: nat)
    requires OccursAt(s, LIB_KEY, k) && OccursAt(s, LIB_KEY, n) && k < n
    ensures k + 28 <= n
  {
    LibKeyChars();
    OccursChar(s, LIB_KEY, k, 27);
    if n <= k + 27 {
      OccursChar(s, LIB_KEY, n, k + 27 - n);
    }
  }

  lemma UpdatedText(before: string, libs: string, rest: string)
    ensures Updated(before, libs, rest) == before + LIB_KEY + WithExtension(libs) + "'" + rest
  {
    hide WithExtension;
    assert before + "" == before;
  }

  lemma NoNameInUpdated(s: string, before: string, group: string, libs: string, rest: string)
    requires Parts(s, before, group, libs, rest)
    ensures NoNameIn(Updated(before, libs, rest), |before|)
  {
    UpdatedText(before, libs, rest);
    hide Updated;
    hide WithExtension;
    NoNameBefore(s, before, group, libs, rest);
    SharedIndex(s, before, group, libs, rest);
    hide SharedSplit;
    hide MatchStart;
    hide IsSharedLine;
    LibKeyChars();
    var u, n := Updated(before, libs, rest), |before|;
    assert u[..n] == before && u[n..n + 28] == LIB_KEY;
    forall k | 0 <= k < n ensures !OccursAt(u, LIB_KEY, k) {
      if OccursAt(u, LIB_KEY, k) {
        NamesDoNotOverlap(u, k, n);
      }
      if k + 28 <= n {
        SameBefore(u, s, n, k);
      }
    }
  }

  lemma SameBefore(u: string, s: string, n: nat, k: nat)
    requires k + 28 <= n <= |u| && n <= |s| && u[..n] == s[..n]
    ensures OccursAt(u, LIB_KEY, k) == OccursAt(s, LIB_KEY, k)
  {
    LibKeyChars();
    assert u[k..k + 28] == u[..n][k..k + 28] && s[k..k + 28] == s[..n][k..k + 28];
  }

  /** Where the name would have to be for a match to start at `j` before the name at `n`. */
  lemma StartBefore(u: string, n: nat, j: nat)
    requires j < n && n + 28 <= |u| && u[n..n + 28] == LIB_KEY
    ensures LibStart(u, j) <= n && (LibStart(u, j) == n ==> TrailingMark(u[..n]))
  {
    LibKeyChars();
    assert u[n] == LIB_KEY[0] == 's';
    var h := RunLength(Hash, u, j);
    RunStops(Hash, u, j, n);
    if h > 0 {
      RunStops(Space, u, j + h, n);
      var t := u[..n];
      if LibStart(u, j) == n {
        assert t[j + h - 1] == u[j + h - 1] && Has(Hash, u[j + h - 1]);
        var tail := t[j + h..];
        forall i | 0 <= i < |tail| ensures IsSpace(tail[i]) {
          assert tail[i] == u[j + h + i] && Has(Space, u[j + h + i]);
        }
        assert t[j + h - 1 + 1..] == t[j + h..];
      }
    }
  }

  lemma RunStops(c: Class, s: string, i: nat, n: nat)
    requires i <= n < |s| && !Has(c, s[n])
    ensures i + RunLength(c, s, i) <= n
  {
  }

  /** A mark at the end of the text before the name makes a match that starts there. */
  lemma MarkStarts(u: string, n: nat) returns (j: nat)
    requires n + 28 <= |u| && u[n..n + 28] == LIB_KEY && TrailingMark(u[..n])
    ensures j < n && LibStart(u, j) == n
  {
    LibKeyChars();
    assert u[n] == LIB_KEY[0] == 's';
    var t := u[..n];
    j :| 0 <= j < |t| && t[j] == '#' && AllSpace(t[j + 1..]);
    forall i | j + 1 <= i < n ensures IsSpace(u[i]) {
      assert u[i] == t[j + 1..][i - j - 1];
    }
    assert u[j] == t[j];
    RunLengthIs(Hash, u, j, 1);
    RunLengthIs(Space, u, j + 1, n - j - 1);
  }

  lemma ActiveIff(u: string, n: nat, w: string)
    requires n + 28 + |w| < |u| && u[n..n + 28] == LIB_KEY && u[n + 28..n + 28 + |w|] == w && u[n + 28 + |w|] == '\''
    requires '\'' !in w && OneLine(w) && NoNameIn(u, n)
    ensures ParseLine(u) == Some(SharedLibResult(0, false, Contains(w, EXT_NAME), "", w)) <==> !TrailingMark(u[..n])
  {
    hide MatchStart;
    hide Contains;
    hide LibsEnd;
    hide LibStart;
    hide ParseLine;
    hide OneLine;
    hide NoNameIn;
    hide OccursAt;
    SharedLibsEnd(u, n, w);
    if TrailingMark(u[..n]) {
      var j := MarkStarts(u, n);
      hide TrailingMark;
      StillCommented(u, n, j);
    } else {
      hide TrailingMark;
      NothingBefore(u, n);
      NameStart(u, n);
      ParseAt(u, n);
      assert u[n..n] == "";
    }
  }

  /** The line an update is for is read as active, with its list, exactly when no comment mark is left before the name. */
  lemma UpdatedIsActiveIff(s: string, before: string, group: string, libs: string, rest: string)
    requires Parts(s, before, group, libs, rest)
    ensures ParseLine(Updated(before, libs, rest)) == Some(SharedLibResult(0, false, true, "", WithExtension(libs))) <==>
            !TrailingMark(before)
  {
    hide Updated;
    hide MatchStart;
    hide Contains;
    hide ParseLine;
    hide OneLine;
    hide NoNameIn;
    hide TrailingMark;
    hide IsGroup;
    UpdatedText(before, libs, rest);
    NoNameInUpdated(s, before, group, libs, rest);
    SharedSplitFacts(s, before, group, libs, rest);
    hide SharedSplit;
    ExtensionIn(libs);
    hide WithExtension;
    UpdatedParts(Updated(before, libs, rest), before, WithExtension(libs), rest);
    ActiveIff(Updated(before, libs, rest), |before|, WithExtension(libs));
  }

  lemma UpdatedParts(u: string, before: string, w: string, rest: string)
    requires u == before + LIB_KEY + w + "'" + rest
    ensures var n := |before|;
            n + 28 + |w| < |u| && u[..n] == before && u[n..n + 28] == LIB_KEY && u[n + 28..n + 28 + |w|] == w && u[n + 28 + |w|] == '\''
  {
    LibKeyChars();
  }

  lemma NameStart(u: string, n: nat)
    requires n + 28 <= |u| && u[n..n + 28] == LIB_KEY
    ensures LibStart(u, n) == n && OccursAt(u, LIB_KEY, n)
  {
    LibKeyChars();
    assert u[n] == LIB_KEY[0] == 's';
    RunLengthIs(Hash, u, n, 0);
  }

  lemma NothingBefore(u: string, n: nat)
    requires n + 28 <= |u| && u[n..n + 28] == LIB_KEY && NoNameIn(u, n) && !TrailingMark(u[..n])
    ensures forall j :: 0 <= j < n ==> LibsEnd(u, LibStart(u, j)).None?
  {
    hide LibStart;
    hide FirstQuote;
    hide RunLength;
    hide TrailingMark;
    forall j | 0 <= j < n ensures LibsEnd(u, LibStart(u, j)).None? {
      StartBefore(u, n, j);
    }
  }

  lemma StillCommented(u: string, n: nat, j: nat)
    requires NoNameIn(u, n) && j < n <= |u| && LibStart(u, j) == n && LibsEnd(u, n).Some?
    ensures IsSharedLine(u) && ParseLine(u).value.commented
  {
    hide LibStart;
    hide ParseLine;
    hide MatchStart;
    var i := FirstStart(u, j);
    ParseAt(u, i);
    assert OccursAt(u, LIB_KEY, LibStart(u, i));
    hide LibsEnd;
  }

  lemma {:induction false} FirstStart(u: string, j: nat) returns (i: nat)
    requires j <= |u| && LibsEnd(u, LibStart(u, j)).Some?
    ensures i <= j && LibsEnd(u, LibStart(u, i)).Some?
    ensures forall k :: 0 <= k < i ==> LibsEnd(u, LibStart(u, k)).None?
    decreases j
  {
    hide LibsEnd;
    hide LibStart;
    if k :| 0 <= k < j && LibsEnd(u, LibStart(u, k)).Some? {
      i := FirstStart(u, k);
    } else {
      i := j;
    }
  }

  // ---------------------------------------------------------------- removing the marker

  lemma GroupStarts(g: string)
    requires IsGroup(g) && g != ""
    ensures g[0] == '#' && (forall d :: 0 < d < |g| && g[d] == '#' ==> g[d - 1] == '#')
  {
    var h :| 0 < h <= |g| && AllHashes(g[..h]) && AllSpace(g[h..]);
    forall d | 0 <= d < |g| ensures if d < h then g[d] == '#' else IsSpace(g[d]) {
      assert if d < h then g[..h][d] == g[d] else g[h..][d - h] == g[d];
    }
  }

  lemma EndsInGroup(a: string, g: string)
    requires IsGroup(g) && g != ""
    ensures TrailingMark(a + g)
  {
    var h :| 0 < h <= |g| && AllHashes(g[..h]) && AllSpace(g[h..]);
    var t, k := a + g, |a| + h - 1;
    assert t[k] == g[..h][h - 1];
    assert t[k + 1..] == g[h..];
  }

  lemma EndsInHash(t: string)
    requires |t| > 0 && t[|t| - 1] == '#'
    ensures TrailingMark(t)
  {
    assert t[|t| - 1 + 1..] == "";
  }

  /** An occurrence of the marker that reached into the match would make the text before it end in #. */
  lemma HashBefore(before: string, g: string, k: string, j: nat)
    requires IsGroup(g) && g != "" && OccursAt(before + g + k, g, j) && j < |before| < j + |g|
    ensures before[|before| - 1] == '#'
  {
    var s, n := before + g + k, |before|;
    GroupStarts(g);
    OccursChar(s, g, j, n - j);
    OccursChar(s, g, j, n - j - 1);
    assert s[n] == g[0] && s[n - 1] == before[n - 1];
  }

  lemma EarlierMarker(before: string, g: string, k: string, j: nat)
    requires IsGroup(g) && g != "" && !TrailingMark(before)
    requires j < |before| && OccursAt(before + g + k, g, j)
    ensures j + |g| <= |before|
  {
    hide TrailingMark;
    if |before| < j + |g| {
      HashBefore(before, g, k, j);
      EndsInHash(before);
    }
  }

  lemma OwnMarker(before: string, g: string, k: string)
    ensures OccursAt(before + g + k, g, |before|)
    ensures IndexFrom(before + g + k, g, 0) == Some(|before|) ==> ReplaceFirst(before + g + k, g, "") == before + k
  {
    var s, n := before + g + k, |before|;
    assert s[n..n + |g|] == g && s[..n] == before && s[n + |g|..] == k;
    assert before + "" + k == before + k;
  }

  /** Cutting a text before the end of its first part. */
  lemma CutFirst(a: string, b: string, c: string, i: nat)
    requires i <= |a|
    ensures (a + b + c)[..i] == a[..i] && (a + b + c)[i..] == a[i..] + b + c
  {
  }

  lemma JoinFour(p: string, q: string, g: string, k: string)
    ensures p + "" + (q + g + k) == (p + q + g) + k
  {
  }

  /** What is left when an earlier occurrence of the marker is removed. */
  lemma RemovedEarlier(before: string, g: string, k: string, j: nat)
    requires j + |g| <= |before| && IndexFrom(before + g + k, g, 0) == Some(j)
    ensures ReplaceFirst(before + g + k, g, "") == (before[..j] + before[j + |g|..] + g) + k
  {
    hide IndexFrom;
    hide ReplaceFirst;
    hide OccursAt;
    FirstReplaced(before + g + k, g, "", j);
    CutFirst(before, g, k, j);
    CutFirst(before, g, k, j + |g|);
    JoinFour(before[..j], before[j + |g|..], g, k);
  }

  lemma Halved(a: string, k: string)
    ensures (a + k)[..|a|] == a && (a + k)[|a|..] == k
  {
  }

  /** Removing the first occurrence of the marker leaves the text before the match alone only when it is the match's own. */
  lemma RemovalIff(before: string, g: string, k: string)
    requires IsGroup(g) && g != "" && !TrailingMark(before)
    ensures var s, n := before + g + k, |before|;
            var bare := ReplaceFirst(s, g, "");
            && IndexFrom(s, g, 0).Some? && n <= |bare| && bare[n..] == k
            && (bare[..n] == before <==> IndexFrom(s, g, 0) == Some(n))
  {
    hide TrailingMark;
    hide IsGroup;
    var s, n := before + g + k, |before|;
    OwnMarker(before, g, k);
    hide ReplaceFirst;
    var j := IndexFrom(s, g, 0).value;
    hide IndexFrom;
    if j < n {
      EarlierMarker(before, g, k, j);
      RemovedEarlier(before, g, k, j);
      var a := before[..j] + before[j + |g|..];
      Halved(a + g, k);
      EndsInGroup(a, g);
    } else {
      Halved(before, k);
    }
  }

  // ---------------------------------------------------------------- adding the extension

  function Quoted(libs: string): string {
    "= '" + libs + "'"
  }

  /** What WithExtension adds to a list without the extension. */
  function Added(libs: string): (x: string)
    ensures 11 <= |x| <= 12 && x[0] != '\''
  {
    (if |libs| > 0 then "," else "") + EXT_NAME
  }

  lemma ExtensionIsAdded(libs: string)
    requires !Contains(libs, EXT_NAME)
    ensures WithExtension(libs) == libs + Added(libs)
  {
    hide Contains;
  }

  lemma OneQuote(libs: string, rest: string, d: nat)
    requires '\'' !in libs && d < 28 + |libs| && d != 27
    ensures (LIB_KEY + libs + "'" + rest)[d] != '\''
  {
    LibKeyChars();
    var k := LIB_KEY + libs + "'" + rest;
    assert k[d] == if d < 28 then LIB_KEY[d] else libs[d - 28];
  }

  /** A list in quotes that starts before the one in place ends before it or at its opening quote. */
  lemma EarlierList(bare: string, n: nat, libs: string, rest: string, a: nat)
    requires n <= |bare| && bare[n..] == LIB_KEY + libs + "'" + rest && '\'' !in libs
    requires OccursAt(bare, Quoted(libs), a) && a < n + 25
    ensures a + 3 + |libs| < n || a + 3 + |libs| == n + 27
  {
    var e := a + 3 + |libs|;
    OccursChar(bare, Quoted(libs), a, 3 + |libs|);
    if n <= e && e - n != 27 {
      OneQuote(libs, rest, e - n);
    }
  }

  /** Replacing the first list gives the line meant exactly when it is the one in place, after the text meant. */
  lemma {:induction false} ExtensionIff(bare: string, before: string, libs: string, rest: string)
    requires |before| <= |bare| && bare[|before|..] == LIB_KEY + libs + "'" + rest && '\'' !in libs
    ensures var x, n := Added(libs), |before|;
            && IndexFrom(bare, Quoted(libs), 0).Some?
            && (ReplaceFirst(bare, Quoted(libs), Quoted(libs + x)) == before + LIB_KEY + (libs + x) + "'" + rest <==>
                IndexFrom(bare, Quoted(libs), 0) == Some(n + 25) && bare[..n] == before)
  {
    LibKeyChars();
    var n, x := |before|, Added(libs);
    hide Added;
    InPlace(bare, n, libs, rest);
    var a := IndexFrom(bare, Quoted(libs), 0).value;
    if a == n + 25 {
      ReplacedInPlace(bare, before, libs, x, rest);
    } else {
      EarlierList(bare, n, libs, rest, a);
      ReplacedElsewhere(bare, before, libs, x, rest, a);
    }
  }

  const NAME := LIB_KEY[..25]

  /** The text before the list, the list, and the rest. */
  lemma AroundTheList(head: string, libs: string, rest: string)
    ensures head + LIB_KEY + libs + "'" + rest == (head + NAME) + Quoted(libs) + rest
    ensures |head + NAME| == |head| + 25
  {
    LibKeyChars();
    assert LIB_KEY == NAME + "= '";
    Regroup(head, NAME, "= '", libs, rest);
  }

  lemma Rejoined(bare: string, n: nat, libs: string, rest: string)
    requires n <= |bare| && bare[n..] == LIB_KEY + libs + "'" + rest
    ensures bare == bare[..n] + LIB_KEY + libs + "'" + rest
  {
    assert bare == bare[..n] + bare[n..];
  }

  lemma OccursBetween(p: string, t: string, q: string)
    ensures OccursAt(p + t + q, t, |p|) && (p + t + q)[..|p|] == p && (p + t + q)[|p| + |t|..] == q
  {
    var s := p + t + q;
    assert s[|p|..|p| + |t|] == t;
  }

  lemma InPlace(bare: string, n: nat, libs: string, rest: string)
    requires n <= |bare| && bare[n..] == LIB_KEY + libs + "'" + rest
    ensures OccursAt(bare, Quoted(libs), n + 25)
  {
    hide NAME;
    hide LIB_KEY;
    hide OccursAt;
    Rejoined(bare, n, libs, rest);
    AroundTheList(bare[..n], libs, rest);
    hide Quoted;
    OccursBetween(bare[..n] + NAME, Quoted(libs), rest);
  }

  lemma ReplaceBetween(p: string, t: string, q: string, u: string)
    requires IndexFrom(p + t + q, t, 0) == Some(|p|)
    ensures ReplaceFirst(p + t + q, t, u) == p + u + q
  {
    hide IndexFrom;
    hide OccursAt;
    OccursBetween(p, t, q);
  }

  /** The text with another list in place of its own. */
  lemma ListReplaced(bare: string, n: nat, libs: string, more: string, rest: string)
    requires n <= |bare| && bare[n..] == LIB_KEY + libs + "'" + rest
    requires IndexFrom(bare, Quoted(libs), 0) == Some(n + 25)
    ensures ReplaceFirst(bare, Quoted(libs), Quoted(more)) == bare[..n] + LIB_KEY + more + "'" + rest
  {
    hide NAME;
    hide LIB_KEY;
    hide IndexFrom;
    hide ReplaceFirst;
    Rejoined(bare, n, libs, rest);
    AroundTheList(bare[..n], libs, rest);
    AroundTheList(bare[..n], more, rest);
    hide Quoted;
    ReplaceBetween(bare[..n] + NAME, Quoted(libs), rest, Quoted(more));
  }

  lemma ReplacedInPlace(bare: string, before: string, libs: string, x: string, rest: string)
    requires |before| <= |bare| && bare[|before|..] == LIB_KEY + libs + "'" + rest
    requires IndexFrom(bare, Quoted(libs), 0) == Some(|before| + 25)
    ensures ReplaceFirst(bare, Quoted(libs), Quoted(libs + x)) == before + LIB_KEY + (libs + x) + "'" + rest <==> bare[..|before|] == before
  {
    hide LIB_KEY;
    hide IndexFrom;
    hide ReplaceFirst;
    hide Quoted;
    ListReplaced(bare, |before|, libs, libs + x, rest);
    SameHead(bare[..|before|], before, LIB_KEY, libs + x, rest);
  }

  lemma SameHead(a: string, b: string, k: string, l: string, rest: string)
    requires |a| == |b|
    ensures a + k + l + "'" + rest == b + k + l + "'" + rest <==> a == b
  {
    var s, t := a + k + l + "'" + rest, b + k + l + "'" + rest;
    assert s[..|a|] == a && t[..|b|] == b;
  }

  /** The text with an addition put in at the closing quote of the list at `a`: what is there, and what was at `i` further on. */
  lemma PutIn(bare: string, libs: string, x: string, a: nat, i: nat)
    requires IndexFrom(bare, Quoted(libs), 0) == Some(a) && x != "" && a + 3 + |libs| <= i < |bare|
    ensures var u, e := ReplaceFirst(bare, Quoted(libs), Quoted(libs + x)), a + 3 + |libs|;
            i + |x| < |u| && u[e] == x[0] && u[i + |x|] == bare[i]
  {
    hide IndexFrom;
    var e := a + 3 + |libs|;
    FirstReplaced(bare, Quoted(libs), Quoted(libs + x), a);
    hide ReplaceFirst;
    EndQuoteOf(bare, libs, a);
    PutInAt(bare[..a], libs, x, bare[e + 1..], if i == e then 0 else i - e - 1);
    hide Quoted;
  }

  lemma PutInAt(head: string, libs: string, x: string, tail: string, i: nat)
    requires x != ""
    ensures var u, e := head + Quoted(libs + x) + tail, |head| + 3 + |libs|;
            && |u| == e + |x| + 1 + |tail| && u[e] == x[0] && u[e + |x|] == '\''
            && (i < |tail| ==> u[e + |x| + 1 + i] == tail[i])
  {
    assert Quoted(libs + x) == "= '" + libs + x + "'";
  }

  lemma FirstReplaced(s: string, t: string, u: string, i: nat)
    requires IndexFrom(s, t, 0) == Some(i)
    ensures OccursAt(s, t, i) && ReplaceFirst(s, t, u) == s[..i] + u + s[i + |t|..]
  {
  }

  lemma EndQuoteOf(bare: string, libs: string, a: nat)
    requires OccursAt(bare, Quoted(libs), a)
    ensures |Quoted(libs)| == |libs| + 4 && a + 4 + |libs| <= |bare| && bare[a + 3 + |libs|] == '\''
  {
    OccursChar(bare, Quoted(libs), a, 3 + |libs|);
  }

  lemma NameQuote(before: string, rest: string)
    ensures (before + LIB_KEY + rest)[|before| + 27] == '\''
  {
    LibKeyChars();
  }

  lemma NoQuoteInName(bare: string, n: nat, libs: string, rest: string, d: nat)
    requires n <= |bare| && bare[n..] == LIB_KEY + libs + "'" + rest && d < 27
    ensures n + d < |bare| && bare[n + d] != '\''
  {
    LibKeyChars();
    assert bare[n + d] == bare[n..][d] == LIB_KEY[d];
  }

  lemma {:induction false} ReplacedElsewhere(bare: string, before: string, libs: string, x: string, rest: string, a: nat)
    requires |before| <= |bare| && bare[|before|..] == LIB_KEY + libs + "'" + rest
    requires IndexFrom(bare, Quoted(libs), 0) == Some(a) && 11 <= |x| <= 12 && x[0] != '\''
    requires a + 3 + |libs| < |before| || a + 3 + |libs| == |before| + 27
    ensures ReplaceFirst(bare, Quoted(libs), Quoted(libs + x)) != before + LIB_KEY + (libs + x) + "'" + rest
  {
    hide IndexFrom;
    var n, e := |before|, a + 3 + |libs|;
    NoQuoteInName(bare, n, libs, rest, 27 - |x|);
    PutIn(bare, libs, x, a, if e == n + 27 then e else n + 27 - |x|);
    hide ReplaceFirst;
    hide Quoted;
    NameQuote(before, (libs + x) + "'" + rest);
    assert before + LIB_KEY + ((libs + x) + "'" + rest) == before + LIB_KEY + (libs + x) + "'" + rest;
    hide LIB_KEY;
  }

  // ---------------------------------------------------------------- the whole update

  /**
    What can be looked up before the update: no comment mark ends the text before the match, the
    marker first occurs in the match, and so does the list once the marker is gone.
   */
  predicate Updatable(s: string)
    requires IsSharedLine(s)
  {
    var r, i := ParseLine(s).value, MatchStart(s);
    && !TrailingMark(s[..i])
    && (r.commented ==> IndexFrom(s, r.commentGroup, 0) == Some(i))
    && (!r.hasTimescale ==>
          (i + |r.commentGroup| <= |s| && IndexFrom(s[..i] + s[i + |r.commentGroup|..], Quoted(r.libs), 0) == Some(i + 25)))
  }

  lemma GroupTail(s: string, before: string, group: string, libs: string, rest: string)
    requires SharedSplit(s, before, group, libs, rest)
    ensures |before| + |group| <= |s| && s[..|before|] == before && s[|before| + |group|..] == LIB_KEY + libs + "'" + rest
    ensures s == before + group + (LIB_KEY + libs + "'" + rest)
    ensures IsGroup(group) && '\'' !in libs
  {
    Reassociate(before, group, libs, rest);
  }

  /** The update in terms of the line once its marker is removed. */
  lemma UpdateOfBare(s: string, r: SharedLibResult)
    requires r.hasTimescale == Contains(r.libs, EXT_NAME)
    ensures var bare := if r.commented then ReplaceFirst(s, r.commentGroup, "") else s;
            UpdateLine(s, r) == if r.hasTimescale then bare else ReplaceFirst(bare, Quoted(r.libs), Quoted(r.libs + Added(r.libs)))
  {
    hide ReplaceFirst;
    hide Contains;
    if !r.hasTimescale {
      ExtensionText(r.libs);
      ExtensionIsAdded(r.libs);
      hide Added;
      hide WithExtension;
    }
  }

  lemma BareIsMeantIff(bare: string, before: string, k: string)
    requires |before| <= |bare| && bare[|before|..] == k
    ensures bare == before + k <==> bare[..|before|] == before
  {
    assert bare == bare[..|before|] + bare[|before|..];
    assert (before + k)[..|before|] == before;
  }

  /** With the marker out of the way, the update gives the line meant exactly when both first occurrences are in the match. */
  lemma UpdateIsMeantIff(s: string, before: string, group: string, libs: string, rest: string, r: SharedLibResult)
    requires SharedSplit(s, before, group, libs, rest) && !TrailingMark(before)
    requires r.commentGroup == group && r.libs == libs && r.commented == (group != "") && r.hasTimescale == Contains(libs, EXT_NAME)
    ensures UpdateLine(s, r) == Updated(before, libs, rest) <==>
            (r.commented ==> IndexFrom(s, group, 0) == Some(|before|)) &&
            (!r.hasTimescale ==> IndexFrom(before + (LIB_KEY + libs + "'" + rest), Quoted(libs), 0) == Some(|before| + 25))
  {
    UpdatedText(before, libs, rest);
    hide Updated;
    hide ReplaceFirst;
    hide IndexFrom;
    hide Contains;
    hide TrailingMark;
    hide IsGroup;
    hide Quoted;
    hide Added;
    hide LIB_KEY;
    var k := LIB_KEY + libs + "'" + rest;
    GroupTail(s, before, group, libs, rest);
    UpdateOfBare(s, r);
    hide UpdateLine;
    hide SharedSplit;
    var bare := if r.commented then ReplaceFirst(s, group, "") else s;
    if r.commented {
      RemovalIff(before, group, k);
    }
    assert |before| <= |bare| && bare[|before|..] == k;
    BareIsMeantIff(bare, before, k);
    Reassociate(before, group, libs, rest);
    if r.hasTimescale {
      assert Updated(before, libs, rest) == before + k;
    } else {
      ExtensionIsAdded(libs);
      hide WithExtension;
      ExtensionIff(bare, before, libs, rest);
    }
  }

  /**
    The update changes only the marker and the list, and its result is read as active and holding
    the extension, exactly when the line is updatable.
   */
  lemma UpdateTakesEffectIff(s: string) returns (rest: string)
    requires IsSharedLine(s) && OneLine(s)
    ensures var r, i := ParseLine(s).value, MatchStart(s);
            && SharedSplit(s, s[..i], r.commentGroup, r.libs, rest)
            && (UpdateLine(s, r) == Updated(s[..i], r.libs, rest) &&
                ParseLine(UpdateLine(s, r)) == Some(SharedLibResult(0, false, true, "", WithExtension(r.libs))) <==>
                Updatable(s))
  {
    hide ParseLine;
    hide MatchStart;
    hide SharedSplit;
    hide OneLine;
    hide Contains;
    hide UpdateLine;
    hide WithExtension;
    hide TrailingMark;
    hide IndexFrom;
    hide Quoted;
    hide LIB_KEY;
    hide Updated;
    rest := SharedSound(s);
    var r, i := ParseLine(s).value, MatchStart(s);
    var before := s[..i];
    UpdatedIsActiveIff(s, before, r.commentGroup, r.libs, rest);
    GroupTail(s, before, r.commentGroup, r.libs, rest);
    if !TrailingMark(before) {
      UpdateIsMeantIff(s, before, r.commentGroup, r.libs, rest, r);
    }
  }

  /** An indented line is updatable. */
  lemma IndentedIsUpdatable(s: string)
    requires IsSharedLine(s) && OneLine(s) && WellPlaced(s)
    ensures Updatable(s)
  {
    hide ParseLine;
    hide MatchStart;
    hide OneLine;
    hide Contains;
    hide UpdateLine;
    hide WithExtension;
    hide LIB_KEY;
    hide Updatable;
    var rest := UpdateLibraries(s);
    var rest' := UpdateTakesEffectIff(s);
    SharedIndex(s, s[..MatchStart(s)], ParseLine(s).value.commentGroup, ParseLine(s).value.libs, rest);
    SharedIndex(s, s[..MatchStart(s)], ParseLine(s).value.commentGroup, ParseLine(s).value.libs, rest');
    hide SharedSplit;
  }

  lemma TwoMarks(s: string)
    requires |s| >= 32 && s[..4] == "# # " && s[4..32] == LIB_KEY && LibsEnd(s, 4).Some?
    ensures IsSharedLine(s) && MatchStart(s) == 2
  {
    hide LibsEnd;
    hide MatchStart;
    hide ParseLine;
    LibKeyChars();
    assert s[0] == s[..4][0] && s[1] == s[..4][1] && s[2] == s[..4][2] && s[3] == s[..4][3] && s[4] == LIB_KEY[0];
    RunLengthIs(Hash, s, 0, 1);
    RunLengthIs(Space, s, 1, 1);
    RunLengthIs(Hash, s, 1, 0);
    RunLengthIs(Hash, s, 2, 1);
    RunLengthIs(Space, s, 3, 1);
    hide RunLength;
    NoNameAt(s, 2);
    NoNameAt(s, 1);
    ParseAt(s, 2);
  }

  lemma NoNameAt(s: string, p: nat)
    requires p < |s| && s[p] != 's'
    ensures LibsEnd(s, p).None?
  {
    if OccursAt(s, LIB_KEY, p) {
      OccursChar(s, LIB_KEY, p, 0);
    }
  }

  /** A line with two comment marks is not updatable, whatever its libraries: one mark is left. */
  lemma TwoMarksFail(libs: string, rest: string)
    requires '\'' !in libs && OneLine(libs)
    ensures var s := "# # " + LIB_KEY + libs + "'" + rest;
            IsSharedLine(s) && MatchStart(s) == 2 && !Updatable(s)
  {
    hide LibsEnd;
    hide MatchStart;
    hide ParseLine;
    hide IndexFrom;
    hide Contains;
    var s := "# # " + LIB_KEY + libs + "'" + rest;
    UpdatedParts(s, "# # ", libs, rest);
    SharedLibsEnd(s, 4, libs);
    TwoMarks(s);
    assert s[..2] == s[..4][..2] == "# ";
    EndsInGroup("", "# ") by { assert "# "[..1] == "#" && "# "[1..] == " "; }
    assert "" + "# " == "# ";
    assert TrailingMark(s[..MatchStart(s)]);
    hide TrailingMark;
  }
}
