/** Sequences of lines: the last line of a kind, and the file they are written to and scanned from. */
module Lines {
  import opened Text

  /** The index of the last line of a kind. */
  function Last(lines: seq<string>, p: string -> bool): (r: Option<nat>)
    ensures r.Some? ==> r.value < |lines| && p(lines[r.value])
    ensures r.Some? ==> forall j :: r.value < j < |lines| ==> !p(lines[j])
    ensures r.None? ==> forall j :: 0 <= j < |lines| ==> !p(lines[j])
  {
    if |lines| == 0 then None
    else if p(lines[|lines| - 1]) then Some(|lines| - 1)
    else Last(lines[..|lines| - 1], p)
  }

  lemma {:induction false} LastIs(lines: seq<string>, p: string -> bool, i: nat)
    requires i < |lines| && p(lines[i])
    requires forall j :: i < j < |lines| ==> !p(lines[j])
    ensures Last(lines, p) == Some(i)
  {
    var n := |lines| - 1;
    if i < n {
      LastIs(lines[..n], p, i);
    }
  }

  lemma LastIsNone(lines: seq<string>, p: string -> bool)
    requires forall j :: 0 <= j < |lines| ==> !p(lines[j])
    ensures Last(lines, p) == None
  {
  }

  /** Appending decides by the new line first. */
  lemma LastOfAppend(lines: seq<string>, line: string, p: string -> bool)
    ensures Last(lines + [line], p) == if p(line) then Some(|lines|) else Last(lines, p)
  {
    assert (lines + [line])[..|lines|] == lines;
  }

  /** Replacing a line that is not of the kind by another that is not changes nothing for the kind. */
  lemma LastOfOtherUpdate(lines: seq<string>, i: nat, line: string, p: string -> bool)
    requires i < |lines| && !p(lines[i]) && !p(line)
    ensures Last(lines[i := line], p) == Last(lines, p)
  {
    hide Last;
    match Last(lines, p)
    case Some(j) => LastIs(lines[i := line], p, j);
    case None => LastIsNone(lines[i := line], p);
  }

  /** Replacing the last line of a kind by one of the same kind keeps it the last. */
  lemma LastOfOwnUpdate(lines: seq<string>, i: nat, line: string, p: string -> bool)
    requires Last(lines, p) == Some(i) && p(line)
    ensures i < |lines| && Last(lines[i := line], p) == Some(i)
  {
    hide Last;
    LastIs(lines[i := line], p, i);
  }

  // ---------------------------------------------------------------- dropping lines

  /** The lines that are not marked. */
  function Unmarked(lines: seq<string>, marks: seq<bool>): seq<string>
    requires |lines| == |marks|
  {
    if |lines| == 0 then []
    else
      var n := |lines| - 1;
      Unmarked(lines[..n], marks[..n]) + if marks[n] then [] else [lines[n]]
  }

  /** If the last line of the kind is not marked, it survives as the last of its kind. */
  lemma {:induction false} LastOfUnmarked(lines: seq<string>, marks: seq<bool>, p: string -> bool)
    requires |lines| == |marks|
    requires Last(lines, p).Some? ==> !marks[Last(lines, p).value]
    ensures var out := Unmarked(lines, marks);
            match Last(lines, p)
            case None => Last(out, p) == None
            case Some(i) => Last(out, p).Some? && out[Last(out, p).value] == lines[i]
  {
    if |lines| > 0 {
      var n := |lines| - 1;
      var kept := Unmarked(lines[..n], marks[..n]);
      assert kept + [] == kept;
      LastOfAppend(kept, lines[n], p);
      if !p(lines[n]) {
        LastOfUnmarked(lines[..n], marks[..n], p);
      }
      hide Last;
    }
  }

  /** Lines that agree about the kind, followed by lines not of the kind, have the same last one. */
  lemma SameLast(lines: seq<string>, p: string -> bool, q: string -> bool)
    requires forall i :: 0 <= i < |lines| ==> p(lines[i]) == q(lines[i])
    ensures Last(lines, p) == Last(lines, q)
  {
    match Last(lines, p)
    case None => LastIsNone(lines, q);
    case Some(i) => LastIs(lines, q, i);
  }

  lemma LastPointwise(a: seq<string>, b: seq<string>, p: string -> bool)
    requires |a| <= |b|
    requires Last(a, p).Some? ==> p(b[Last(a, p).value])
    requires forall i :: 0 <= i < |b| && (Last(a, p).Some? ==> Last(a, p).value < i) ==> !p(b[i])
    ensures Last(b, p) == Last(a, p)
  {
    hide Last;
    match Last(a, p)
    case None => LastIsNone(b, p);
    case Some(i) => LastIs(b, p, i);
  }

  lemma {:induction false} NothingMarked(lines: seq<string>, marks: seq<bool>)
    requires |lines| == |marks| && forall i :: 0 <= i < |marks| ==> !marks[i]
    ensures Unmarked(lines, marks) == lines
  {
    if |lines| > 0 {
      NothingMarked(lines[..|lines| - 1], marks[..|lines| - 1]);
    }
  }

  lemma {:induction false} UnmarkedMembers(lines: seq<string>, marks: seq<bool>)
    requires |lines| == |marks|
    ensures forall line :: line in Unmarked(lines, marks) ==> exists i :: 0 <= i < |lines| && !marks[i] && lines[i] == line
  {
    if |lines| > 0 {
      var n := |lines| - 1;
      UnmarkedMembers(lines[..n], marks[..n]);
      forall line | line in Unmarked(lines, marks)
        ensures exists i :: 0 <= i < |lines| && !marks[i] && lines[i] == line
      {
        if line in Unmarked(lines[..n], marks[..n]) {
          var i :| 0 <= i < n && !marks[..n][i] && lines[..n][i] == line;
          assert !marks[i] && lines[i] == line;
        } else {
          assert !marks[n] && lines[n] == line;
        }
      }
    }
  }

  /** The number of lines of a kind. */
  function Count(lines: seq<string>, p: string -> bool): nat {
    if |lines| == 0 then 0
    else Count(lines[..|lines| - 1], p) + if p(lines[|lines| - 1]) then 1 else 0
  }

  lemma {:induction false} CountZero(lines: seq<string>, p: string -> bool)
    requires forall i :: 0 <= i < |lines| ==> !p(lines[i])
    ensures Count(lines, p) == 0
  {
    if |lines| > 0 {
      CountZero(lines[..|lines| - 1], p);
    }
  }

  /** With every line of the kind but the last one marked, one line of the kind is left. */
  lemma {:induction false} OneUnmarked(lines: seq<string>, marks: seq<bool>, p: string -> bool)
    requires |lines| == |marks| && Last(lines, p).Some?
    requires forall i :: 0 <= i < |lines| && p(lines[i]) ==> (marks[i] <==> Last(lines, p) != Some(i))
    ensures Count(Unmarked(lines, marks), p) == 1
  {
    var n := |lines| - 1;
    var init, imarks := lines[..n], marks[..n];
    if p(lines[n]) {
      AllMarked(init, imarks, p);
    } else {
      OneUnmarked(init, imarks, p);
    }
    var kept := Unmarked(init, imarks);
    assert (kept + [lines[n]])[..|kept|] == kept;
    assert kept + [] == kept;
  }

  lemma {:induction false} AllMarked(lines: seq<string>, marks: seq<bool>, p: string -> bool)
    requires |lines| == |marks|
    requires forall i :: 0 <= i < |lines| && p(lines[i]) ==> marks[i]
    ensures Count(Unmarked(lines, marks), p) == 0
  {
    if |lines| > 0 {
      var n := |lines| - 1;
      AllMarked(lines[..n], marks[..n], p);
      var kept := Unmarked(lines[..n], marks[..n]);
      assert (kept + [lines[n]])[..|kept|] == kept;
      assert kept + [] == kept;
    }
  }

  /** With a single line of a kind, every other position holds something else. */
  lemma {:induction false} CountOne(lines: seq<string>, p: string -> bool)
    requires Count(lines, p) == 1
    ensures Last(lines, p).Some? && forall i :: 0 <= i < |lines| && p(lines[i]) ==> Last(lines, p) == Some(i)
  {
    var n := |lines| - 1;
    if p(lines[n]) {
      if Last(lines[..n], p).Some? {
        CountPositive(lines[..n], p, Last(lines[..n], p).value);
      }
    } else {
      CountOne(lines[..n], p);
    }
  }

  lemma {:induction false} CountPositive(lines: seq<string>, p: string -> bool, i: nat)
    requires i < |lines| && p(lines[i])
    ensures Count(lines, p) >= 1
  {
    if i < |lines| - 1 {
      CountPositive(lines[..|lines| - 1], p, i);
    }
  }

  // ---------------------------------------------------------------- files

  /** bufio.ScanLines drops one carriage return at the end of a line. */
  function DropCR(s: string): string {
    if |s| > 0 && s[|s| - 1] == '\r' then s[..|s| - 1] else s
  }

  /** bufio.MaxScanTokenSize: the scanner's buffer, which has to hold a line and the line feed after it. */
  const MAX_TOKEN := 0x1_0000

  predicate Fits(line: string) {
    |line| < MAX_TOKEN
  }

  predicate AllFit(lines: seq<string>) {
    forall i :: 0 <= i < |lines| ==> Fits(lines[i])
  }

  /**
    The lines a scanner yields; text after the last line feed is a line unless it is empty.  A line
    that does not fit ends the scan.
   */
  function ScanLines(text: string): seq<string>
    decreases |text|
  {
    if text == "" then []
    else match IndexFrom(text, "\n", 0)
      case None => if Fits(text) then [DropCR(text)] else []
      case Some(i) => if Fits(text[..i]) then [DropCR(text[..i])] + ScanLines(text[i + 1..]) else []
  }

  /** All the lines of a text, however long. */
  function RawLines(text: string): seq<string>
    decreases |text|
  {
    if text == "" then []
    else match IndexFrom(text, "\n", 0)
      case None => [text]
      case Some(i) => [text[..i]] + RawLines(text[i + 1..])
  }

  /** What is scanned are the lines before the first one that does not fit; that one and all after it are lost. */
  lemma {:induction false} ScanStopsAt(text: string)
    ensures var raw, scanned := RawLines(text), ScanLines(text);
            && |scanned| <= |raw|
            && (forall i :: 0 <= i < |scanned| ==> scanned[i] == DropCR(raw[i]) && |raw[i]| < 65536)
            && (|scanned| < |raw| ==> |raw[|scanned|]| >= 65536)
    decreases |text|
  {
    if text != "" && IndexFrom(text, "\n", 0).Some? {
      ScanStopsAt(text[IndexFrom(text, "\n", 0).value + 1..]);
    }
  }

  /** What WriteTo writes. */
  function WriteText(lines: seq<string>): string {
    if |lines| == 0 then "" else lines[0] + "\n" + WriteText(lines[1..])
  }

  /** A line that survives being written and scanned. */
  predicate Clean(line: string) {
    '\n' !in line && (|line| > 0 ==> line[|line| - 1] != '\r')
  }

  predicate AllClean(lines: seq<string>) {
    forall i :: 0 <= i < |lines| ==> Clean(lines[i])
  }

  lemma FirstFeed(line: string, rest: string)
    requires '\n' !in line
    ensures IndexFrom(line + "\n" + rest, "\n", 0) == Some(|line|)
    ensures (line + "\n" + rest)[..|line|] == line && (line + "\n" + rest)[|line| + 1..] == rest
  {
    var text := line + "\n" + rest;
    forall j | 0 <= j <= |line| ensures OccursAt(text, "\n", j) <==> j == |line| {
      OccursSingle(text, '\n', j);
      assert j < |line| ==> text[j] == line[j];
    }
    assert OccursAt(text, "\n", |line|);
    assert text[..|line|] == line && text[|line| + 1..] == rest;
  }

  lemma ScanStep(line: string, rest: string)
    requires '\n' !in line && Fits(line)
    ensures ScanLines(line + "\n" + rest) == [DropCR(line)] + ScanLines(rest)
  {
    FirstFeed(line, rest);
  }

  /** A scanned line never contains a line feed, and fits. */
  lemma {:induction false} ScannedOneLine(text: string)
    ensures forall line :: line in ScanLines(text) ==> '\n' !in line && Fits(line)
    decreases |text|
  {
    if text != "" {
      match IndexFrom(text, "\n", 0)
      case None => NoFeed(text, |text|);
      case Some(i) =>
        NoFeed(text, i);
        ScannedOneLine(text[i + 1..]);
    }
  }

  lemma NoFeed(text: string, n: nat)
    requires n <= |text| && forall j :: 0 <= j < n ==> !OccursAt(text, "\n", j)
    ensures '\n' !in text[..n] && '\n' !in DropCR(text[..n])
  {
    forall j | 0 <= j < n ensures text[j] != '\n' {
      OccursSingle(text, '\n', j);
    }
  }

  /** Written lines scan back to themselves exactly when each of them is clean and fits. */
  lemma ScanWrittenIff(lines: seq<string>)
    ensures ScanLines(WriteText(lines)) == lines <==> AllClean(lines) && AllFit(lines)
  {
    if AllClean(lines) && AllFit(lines) {
      ScanWritten(lines);
    }
    if ScanLines(WriteText(lines)) == lines {
      ScannedOneLine(WriteText(lines));
      ScanWithoutFeeds(lines);
      forall i | 0 <= i < |lines| ensures Clean(lines[i]) && Fits(lines[i]) {
        assert lines[i] in lines && DropCR(lines[i]) == lines[i];
      }
    }
  }

  lemma {:induction false} ScanWritten(lines: seq<string>)
    requires AllClean(lines) && AllFit(lines)
    ensures ScanLines(WriteText(lines)) == lines
  {
    if |lines| > 0 {
      ScanWritten(lines[1..]);
      ScanStep(lines[0], WriteText(lines[1..]));
    }
  }

  lemma {:induction false} ScanWithoutFeeds(lines: seq<string>)
    requires forall line :: line in lines ==> '\n' !in line && Fits(line)
    ensures var out := ScanLines(WriteText(lines));
            |out| == |lines| && forall i :: 0 <= i < |lines| ==> out[i] == DropCR(lines[i])
  {
    if |lines| > 0 {
      ScanWithoutFeeds(lines[1..]);
      ScanStep(lines[0], WriteText(lines[1..]));
    }
  }
}
