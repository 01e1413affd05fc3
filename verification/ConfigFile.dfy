/** The configuration file in memory (config_file.go): line objects, the scan, the duplicate removers, the write. */
module ConfigFile {
  import opened Text
  import opened Lines
  import opened Regex
  import opened TuneSettings
  import opened LineGrammar
  import opened SharedPreloadLibs
  import opened Tuning

  /** A line and whether it is left out when the file is written. */
  class ConfigLine {
    const content: string
    var remove: bool

    constructor (content: string)
      ensures this.content == content && !remove
    {
      this.content := content;
      remove := false;
    }
  }

  function Contents(lines: seq<ConfigLine>): (r: seq<string>)
    ensures |r| == |lines| && forall i :: 0 <= i < |lines| ==> r[i] == lines[i].content
  {
    seq(|lines|, i requires 0 <= i < |lines| => lines[i].content)
  }

  function Removals(lines: seq<ConfigLine>): (r: seq<bool>)
    reads lines
    ensures |r| == |lines| && forall i :: 0 <= i < |lines| ==> r[i] == lines[i].remove
  {
    seq(|lines|, i requires 0 <= i < |lines| reads lines => lines[i].remove)
  }

  predicate DistinctLines(lines: seq<ConfigLine>) {
    forall i, j :: 0 <= i < j < |lines| ==> lines[i] != lines[j]
  }

  predicate NoneRemoved(lines: seq<ConfigLine>)
    reads lines
  {
    forall i :: 0 <= i < |lines| ==> !lines[i].remove
  }

  function RegexLines(regex: Prog): string -> bool {
    line => ParseWithRegex(line, regex).Some?
  }

  // ---------------------------------------------------------------- the duplicate remover

  /** Tracks the last matching line and marks the one before it. */
  class RemoveDuplicatesProcessor {
    var prev: ConfigLine?
    const regex: Prog

    constructor (regex: Prog)
      ensures this.regex == regex && prev == null
    {
      this.regex := regex;
      prev := null;
    }

    method Process(l: ConfigLine)
      modifies this, prev
      ensures prev == if RegexLines(regex)(l.content) then l else old(prev)
      ensures old(prev) != null ==> old(prev).remove == (RegexLines(regex)(l.content) || old(prev.remove))
    {
      if ParseWithRegex(l.content, regex).Some? {
        if prev != null {
          prev.remove := true;
        }
        prev := l;
      }
    }
  }

  /** Seen by a processor so far, line `a` matched and is no longer its last match. */
  predicate Overtaken(contents: seq<string>, regex: Prog, seen: nat, a: nat)
    requires seen <= |contents|
  {
    a < seen && RegexLines(regex)(contents[a]) && Last(contents[..seen], RegexLines(regex)) != Some(a)
  }

  /** The processor remembers the last match among the lines it has seen. */
  ghost predicate Remembers(p: RemoveDuplicatesProcessor, lines: seq<ConfigLine>, seen: nat)
    requires seen <= |lines|
    reads p
  {
    match Last(Contents(lines)[..seen], RegexLines(p.regex))
    case None => p.prev == null
    case Some(i) => i < |lines| && p.prev == lines[i]
  }

  ghost predicate AllRemember(processors: seq<RemoveDuplicatesProcessor>, lines: seq<ConfigLine>, seen: nat)
    requires seen <= |lines|
    reads processors
  {
    forall c :: 0 <= c < |processors| ==> Remembers(processors[c], lines, seen)
  }

  /** What a line adds to what a processor has overtaken. */
  lemma OvertakenStep(contents: seq<string>, regex: Prog, seen: nat, a: nat)
    requires seen < |contents|
    ensures Last(contents[..seen + 1], RegexLines(regex)) ==
            if RegexLines(regex)(contents[seen]) then Some(seen) else Last(contents[..seen], RegexLines(regex))
    ensures Overtaken(contents, regex, seen + 1, a) <==>
            Overtaken(contents, regex, seen, a) ||
            (RegexLines(regex)(contents[seen]) && Last(contents[..seen], RegexLines(regex)) == Some(a))
  {
    hide RegexLines;
    assert contents[..seen + 1] == contents[..seen] + [contents[seen]];
    LastOfAppend(contents[..seen], contents[seen], RegexLines(regex));
    hide Last;
  }

  function RegexesOf(processors: seq<RemoveDuplicatesProcessor>): (r: seq<Prog>)
    ensures |r| == |processors| && forall c :: 0 <= c < |processors| ==> r[c] == processors[c].regex
  {
    seq(|processors|, c requires 0 <= c < |processors| => processors[c].regex)
  }

  /** Line `i` makes line `a` no longer the last match. */
  predicate Overtakes(contents: seq<string>, regex: Prog, i: nat, a: nat)
    requires i < |contents|
  {
    RegexLines(regex)(contents[i]) && Last(contents[..i], RegexLines(regex)) == Some(a)
  }

  /** Some processor has overtaken line `a` after seeing the first `seen` lines. */
  ghost predicate Marked(contents: seq<string>, regexes: seq<Prog>, seen: nat, a: nat)
    requires seen <= |contents|
  {
    exists c :: 0 <= c < |regexes| && Overtaken(contents, regexes[c], seen, a)
  }

  /** For one of the first `n` processors, line `i` makes line `a` no longer the last match. */
  ghost predicate Overtaking(contents: seq<string>, regexes: seq<Prog>, n: nat, i: nat, a: nat)
    requires n <= |regexes| && i < |contents|
  {
    exists c :: 0 <= c < n && Overtakes(contents, regexes[c], i, a)
  }

  lemma MarkedStep(contents: seq<string>, regexes: seq<Prog>, i: nat)
    requires i < |contents|
    ensures forall a :: Marked(contents, regexes, i + 1, a) <==> Marked(contents, regexes, i, a) || Overtaking(contents, regexes, |regexes|, i, a)
  {
    forall c, a: nat | 0 <= c < |regexes|
      ensures Overtaken(contents, regexes[c], i + 1, a) <==> Overtaken(contents, regexes[c], i, a) || Overtakes(contents, regexes[c], i, a)
    {
      OvertakenStep(contents, regexes[c], i, a);
    }
    hide Overtaken;
    hide Overtakes;
  }

  lemma NothingRemembered(processors: seq<RemoveDuplicatesProcessor>, lines: seq<ConfigLine>)
    requires forall c :: 0 <= c < |processors| ==> processors[c].prev == null
    ensures AllRemember(processors, lines, 0)
  {
  }

  lemma NothingSeen(contents: seq<string>, regexes: seq<Prog>)
    ensures forall a :: !Marked(contents, regexes, 0, a)
  {
  }

  function QuotedRegexes(params: seq<string>): (r: seq<Prog>)
    ensures |r| == |params| && forall i :: 0 <= i < |params| ==> r[i] == KeyToRegexQuoted(params[i])
  {
    seq(|params|, i requires 0 <= i < |params| => KeyToRegexQuoted(params[i]))
  }

  /** getRemoveDuplicatesProcessors */
  method GetRemoveDuplicatesProcessors(params: seq<string>) returns (ps: seq<RemoveDuplicatesProcessor>)
    ensures fresh(ps) && RegexesOf(ps) == QuotedRegexes(params)
    ensures forall c :: 0 <= c < |ps| ==> ps[c].prev == null
    ensures forall c, d :: 0 <= c < d < |ps| ==> ps[c] != ps[d]
  {
    hide KeyToRegexQuoted;
    ps := [];
    for i := 0 to |params|
      invariant fresh(ps) && |ps| == i && forall c :: 0 <= c < i ==> ps[c].prev == null && ps[c].regex == KeyToRegexQuoted(params[c])
      invariant forall c, d :: 0 <= c < d < i ==> ps[c] != ps[d]
    {
      var p := new RemoveDuplicatesProcessor(KeyToRegexQuoted(params[i]));
      ps := ps + [p];
    }
  }

  /** The processors of our parameters mark exactly the superseded lines. */
  lemma MarkedIsSuperseded(contents: seq<string>, a: nat)
    requires a < |contents|
    ensures Marked(contents, QuotedRegexes(OUR_PARAMS), |contents|, a) <==> Superseded(contents, a)
  {
    hide ParseWithRegex;
    hide KeyToRegexQuoted;
    hide Last;
    assert contents[..|contents|] == contents;
    forall p ensures Last(contents, ParamLines(p)) == Last(contents, RegexLines(KeyToRegexQuoted(p))) {
      SameLast(contents, ParamLines(p), RegexLines(KeyToRegexQuoted(p)));
    }
    var regexes := QuotedRegexes(OUR_PARAMS);
    forall c | 0 <= c < |OUR_PARAMS|
      ensures Overtaken(contents, regexes[c], |contents|, a) <==>
              ParamLines(OUR_PARAMS[c])(contents[a]) && Last(contents, ParamLines(OUR_PARAMS[c])) != Some(a)
    {
    }
    hide Overtaken;
    hide ParamLines;
  }

  // ---------------------------------------------------------------- the file

  class ConfigFileState {
    var lines: seq<ConfigLine>
    var sharedLibResult: Option<SharedLibResult>
    var tuneParseResults: map<string, ParseResult>

    constructor ()
      ensures lines == [] && sharedLibResult == None && tuneParseResults == map[]
    {
      lines := [];
      sharedLibResult := None;
      tuneParseResults := map[];
    }

    /** No line object occurs twice, none is marked, and the index points into the lines. */
    predicate Valid()
      reads this, lines
    {
      DistinctLines(lines) && NoneRemoved(lines) && InRange(tuneParseResults, Contents(lines)) &&
      (sharedLibResult.Some? ==> sharedLibResult.value.idx < |lines|)
    }

    /** The parameters of one line, looked up in whatever order the map of patterns yields them. */
    method IndexLine(line: string, ghost before: seq<string>)
      requires |before| == |lines| && tuneParseResults == TuneIndex(before) && !IsSharedLine(line)
      modifies this`tuneParseResults
      ensures tuneParseResults == TuneIndex(before + [line])
    {
      hide FindKey;
      hide TuneIndex;
      hide Lookup;
      hide ParseWithRegex;
      hide KeyToRegex;
      hide IsSharedLine;
      hide ALL_KEYS;
      IndexLookup(before);
      var todo := ALL_KEYS;
      while todo != {}
        invariant todo <= ALL_KEYS
        invariant forall k :: k in ALL_KEYS ==> Lookup(tuneParseResults, k) == FindKey(if k in todo then before else before + [line], k)
        invariant tuneParseResults.Keys <= ALL_KEYS
        decreases todo
      {
        var k :| k in todo;
        var tpr := ParseWithRegex(line, KeyToRegex(k));
        IndexedKey(before, line, k);
        if tpr.Some? {
          LookupAfter(tuneParseResults, k, tpr.value.(idx := |lines|));
          tuneParseResults := tuneParseResults[k := tpr.value.(idx := |lines|)];
        }
        todo := todo - {k};
      }
      IndexIs(tuneParseResults, before + [line]);
    }

    /** One line shown to one processor: the line it overtakes, if any, is marked. */
    method ProcessOne(p: RemoveDuplicatesProcessor, i: nat)
      requires DistinctLines(lines) && i < |lines| && Remembers(p, lines, i)
      modifies p, lines
      ensures Remembers(p, lines, i + 1)
      ensures forall a :: 0 <= a < |lines| ==>
                lines[a].remove == (old(lines[a].remove) || Overtakes(Contents(lines), p.regex, i, a))
    {
      ghost var contents := Contents(lines);
      OvertakenStep(contents, p.regex, i, 0);
      p.Process(lines[i]);
    }

    /** One line shown to every processor, in turn. */
    method ProcessLine(processors: seq<RemoveDuplicatesProcessor>, i: nat)
      requires DistinctLines(lines) && i < |lines|
      requires AllRemember(processors, lines, i)
      requires forall c, d :: 0 <= c < d < |processors| ==> processors[c] != processors[d]
      modifies processors, lines
      ensures AllRemember(processors, lines, i + 1)
      ensures forall a :: 0 <= a < |lines| ==>
                lines[a].remove == (old(lines[a].remove) || Overtaking(Contents(lines), RegexesOf(processors), |processors|, i, a))
    {
      hide Last;
      hide RegexLines;
      hide Overtakes;
      hide Contents;
      hide RegexesOf;
      hide DistinctLines;
      hide Remembers;
      ghost var contents, regexes := Contents(lines), RegexesOf(processors);
      var j := 0;
      while j < |processors|
        invariant j <= |processors|
        invariant forall c :: 0 <= c < j ==> Remembers(processors[c], lines, i + 1)
        invariant forall c :: j <= c < |processors| ==> Remembers(processors[c], lines, i)
        invariant forall a :: 0 <= a < |lines| ==> lines[a].remove == (old(lines[a].remove) || Overtaking(contents, regexes, j, i, a))
      {
        ProcessOne(processors[j], i);
        j := j + 1;
      }
    }

    /** ProcessLines: each line is shown to each processor. */
    method ProcessLines(processors: seq<RemoveDuplicatesProcessor>)
      requires DistinctLines(lines)
      requires forall c :: 0 <= c < |processors| ==> processors[c].prev == null
      requires forall c, d :: 0 <= c < d < |processors| ==> processors[c] != processors[d]
      modifies processors, lines
      ensures forall a :: 0 <= a < |lines| ==>
                lines[a].remove == (old(lines[a].remove) || Marked(Contents(lines), RegexesOf(processors), |lines|, a))
    {
      hide Marked;
      hide Overtaking;
      hide Overtaken;
      hide Overtakes;
      hide Last;
      hide RegexLines;
      hide Contents;
      hide RegexesOf;
      hide DistinctLines;
      ghost var contents, regexes := Contents(lines), RegexesOf(processors);
      NothingSeen(contents, regexes);
      NothingRemembered(processors, lines);
      hide AllRemember;
      ghost var was := Removals(lines);
      hide Removals;
      var i := 0;
      while i < |lines|
        invariant i <= |lines|
        invariant AllRemember(processors, lines, i)
        invariant forall a :: 0 <= a < |lines| ==> lines[a].remove == (was[a] || Marked(contents, regexes, i, a))
      {
        MarkedStep(contents, regexes, i);
        ProcessLine(processors, i);
        i := i + 1;
      }
    }

    /** WriteTo: the unmarked lines, each ended by a line feed. */
    method WriteTo() returns (text: string)
      ensures text == WriteText(Unmarked(Contents(lines), Removals(lines)))
    {
      text := "";
      ghost var contents, removals := Contents(lines), Removals(lines);
      for i := 0 to |lines|
        invariant text == WriteText(Unmarked(contents[..i], removals[..i]))
      {
        assert contents[..i + 1][..i] == contents[..i] && removals[..i + 1][..i] == removals[..i];
        WriteOneMore(Unmarked(contents[..i], removals[..i]), lines[i].content);
        if !lines[i].remove {
          text := text + lines[i].content + "\n";
        } else {
          assert Unmarked(contents[..i], removals[..i]) + [] == Unmarked(contents[..i], removals[..i]);
        }
      }
      assert contents[..|lines|] == contents && removals[..|lines|] == removals;
    }
  }

  lemma {:induction false} WriteOneMore(lines: seq<string>, line: string)
    ensures WriteText(lines + [line]) == WriteText(lines) + line + "\n"
    decreases |lines|
  {
    if |lines| > 0 {
      assert (lines + [line])[1..] == lines[1..] + [line];
      WriteOneMore(lines[1..], line);
    }
  }

  /** Indexing one more line that is not of the shared-library kind. */
  lemma IndexedKey(before: seq<string>, line: string, k: string)
    requires !IsSharedLine(line)
    ensures FindKey(before + [line], k) ==
            match ParseWithRegex(line, KeyToRegex(k))
            case Some(r) => Some(r.(idx := |before|))
            case None => FindKey(before, k)
  {
    hide ParseWithRegex;
    hide IsSharedLine;
    LastOfAppend(before, line, KeyLines(k));
  }

  lemma IndexLookup(lines: seq<string>)
    ensures TuneIndex(lines).Keys <= ALL_KEYS
    ensures forall k :: k in ALL_KEYS ==> Lookup(TuneIndex(lines), k) == FindKey(lines, k)
  {
    hide FindKey;
    hide ALL_KEYS;
  }

  lemma LookupAfter(tune: map<string, ParseResult>, k: string, r: ParseResult)
    ensures Lookup(tune[k := r], k) == Some(r)
    ensures forall k2 :: k2 != k ==> Lookup(tune[k := r], k2) == Lookup(tune, k2)
  {
  }

  lemma IndexIs(tune: map<string, ParseResult>, lines: seq<string>)
    requires forall k :: k in ALL_KEYS ==> Lookup(tune, k) == FindKey(lines, k)
    requires tune.Keys <= ALL_KEYS
    ensures tune == TuneIndex(lines)
  {
    hide FindKey;
    hide ALL_KEYS;
    forall k ensures k in tune <==> k in TuneIndex(lines) {
      assert k in tune ==> k in ALL_KEYS;
    }
  }

  /** A shared-library line leaves the index as it is. */
  lemma SharedLineNotIndexed(before: seq<string>, line: string)
    requires IsSharedLine(line)
    ensures TuneIndex(before + [line]) == TuneIndex(before)
  {
    hide ParseKey;
    hide IsSharedLine;
    forall k ensures FindKey(before + [line], k) == FindKey(before, k) {
      LastOfAppend(before, line, KeyLines(k));
    }
    hide FindKey;
    hide ALL_KEYS;
  }

  lemma SharedAfterLine(before: seq<string>, line: string)
    ensures FindShared(before + [line]) == if IsSharedLine(line) then Some(ParseLine(line).value.(idx := |before|)) else FindShared(before)
  {
    hide ParseLine;
    LastOfAppend(before, line, SharedLines());
  }

  lemma EmptyIndex()
    ensures TuneIndex([]) == map[] && FindShared([]) == None
  {
  }

  lemma SharedIsParsed(line: string)
    ensures IsSharedLine(line) == ParseLine(line).Some?
  {
    hide ParseLine;
  }

  lemma NothingToScan()
    ensures ScanLines("") == []
  {
  }

  lemma SharedInRange(lines: seq<string>)
    ensures FindShared(lines).Some? ==> FindShared(lines).value.idx < |lines|
  {
  }

  /** One token of the scanner: the next line and the text after it, or no line if it does not fit. */
  method NextLine(text: string) returns (line: Option<string>, rest: string)
    requires text != ""
    ensures ScanLines(text) == if line.Some? then [line.value] + ScanLines(rest) else []
    ensures |rest| < |text|
  {
    match IndexFrom(text, "\n", 0)
    case None =>
      line, rest := if Fits(text) then Some(DropCR(text)) else None, "";
      assert Fits(text) ==> ScanLines(text) == [DropCR(text)] + [];
    case Some(i) =>
      line, rest := if Fits(text[..i]) then Some(DropCR(text[..i])) else None, text[i + 1..];
  }

  /** getConfigFileState: the lines of the text, the last shared-library line, and the last line of each parameter. */
  method GetConfigFileState(text: string) returns (cfs: ConfigFileState)
    ensures fresh(cfs) && fresh(cfs.lines) && cfs.Valid()
    ensures Contents(cfs.lines) == ScanLines(text)
    ensures cfs.sharedLibResult == FindShared(ScanLines(text)) && cfs.tuneParseResults == TuneIndex(ScanLines(text))
  {
    hide FindShared;
    hide TuneIndex;
    hide IsSharedLine;
    hide ParseLine;
    hide ScanLines;
    hide Contents;
    cfs := new ConfigFileState();
    EmptyIndex();
    assert Contents(cfs.lines) == [];
    var rest := text;
    while rest != ""
      invariant fresh(cfs) && fresh(cfs.lines) && DistinctLines(cfs.lines) && NoneRemoved(cfs.lines)
      invariant Contents(cfs.lines) + ScanLines(rest) == ScanLines(text)
      invariant cfs.sharedLibResult == FindShared(Contents(cfs.lines)) && cfs.tuneParseResults == TuneIndex(Contents(cfs.lines))
      decreases |rest|
    {
      ghost var before := Contents(cfs.lines);
      ghost var was := rest;
      var next: Option<string>;
      next, rest := NextLine(rest);
      if next.None? {
        assert before + [] == before;
        break;
      }
      var line := next.value;
      assert before + ([line] + ScanLines(rest)) == (before + [line]) + ScanLines(rest);
      SharedAfterLine(before, line);
      var temp := ParseLine(line);
      SharedIsParsed(line);
      if temp.Some? {
        cfs.sharedLibResult := Some(temp.value.(idx := |cfs.lines|));
        SharedLineNotIndexed(before, line);
      } else {
        cfs.IndexLine(line, before);
      }
      var l := new ConfigLine(line);
      cfs.lines := cfs.lines + [l];
      assert Contents(cfs.lines) == before + [line];
    }
    NothingToScan();
    assert Contents(cfs.lines) + [] == Contents(cfs.lines);
    IndexInRange(ScanLines(text));
    SharedInRange(ScanLines(text));
  }
}
