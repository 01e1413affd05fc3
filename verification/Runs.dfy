/** Whole runs: what a run leaves in place, that its recommendations are in effect, and that a second run changes nothing. */
module Runs {
  import opened Text
  import opened Lines
  import opened Changes
  import opened TuneSettings
  import opened LineGrammar
  import opened SharedPreloadLibs
  import opened LineKinds
  import opened PgTune
  import opened Tuning
  import opened Recommendations
  import opened StaleIndex
  import opened Acceptance
  import opened Settling
  import opened Finishing

  /** Lines that scanning can return again, with the selected shared-library line, if any, only indented. */
  predicate WellFormed(lines: seq<string>) {
    AllClean(lines) && (FindShared(lines).Some? ==> WellPlaced(lines[FindShared(lines).value.idx]))
  }

  // ---------------------------------------------------------------- the groups of a configuration

  predicate Rising(keys: seq<string>, lo: int, hi: int) {
    forall i :: 0 <= i < |keys| ==> lo + i == KeyIndex(keys[i]) < hi
  }

  lemma TableRises(lo: nat, hi: nat)
    requires lo <= hi <= |KEY_TABLE|
    ensures Rising(KEY_TABLE[lo..hi], lo, hi)
  {
    TableIndex();
    hide KeyIndex;
  }

  predicate AtLeast(keys: seq<string>, lo: int) {
    forall i :: 0 <= i < |keys| ==> lo <= KeyIndex(keys[i])
  }

  lemma DistinctJoin(a: seq<string>, b: seq<string>, lo: int, mid: int)
    requires lo <= mid && Rising(a, lo, mid) && Distinct(b) && AtLeast(b, mid) && Known(a) && Known(b)
    ensures Distinct(a + b) && Known(a + b) && AtLeast(a + b, lo)
  {
    hide KeyIndex;
    hide ALL_KEYS;
    var s := a + b;
    assert forall i :: 0 <= i < |a| ==> s[i] == a[i];
    assert forall i :: |a| <= i < |s| ==> s[i] == b[i - |a|];
  }

  lemma GroupKeysRise(name: Label, c: SystemConfig, linux: bool)
    ensures Known(GroupKeys(name, c, linux))
    ensures match name
            case MemoryLabel => Rising(GroupKeys(name, c, linux), 0, 4)
            case ParallelLabel => Rising(GroupKeys(name, c, linux), 4, 8)
            case WALLabel => Rising(GroupKeys(name, c, linux), 8, 13)
            case BgwriterLabel => Rising(GroupKeys(name, c, linux), 13, 14)
            case MiscLabel => Rising(GroupKeys(name, c, linux), 14, 24)
  {
    TableIndex();
    hide KeyIndex;
    match name
    case MemoryLabel =>
      TableRises(0, 4);
      assert KEY_TABLE[0..4] == MEMORY_KEYS;
    case ParallelLabel =>
      TableRises(4, 8);
      assert KEY_TABLE[4..8] == PARALLEL_KEYS;
    case WALLabel =>
      TableRises(8, 13);
      assert KEY_TABLE[8..13] == WAL_KEYS;
    case BgwriterLabel =>
      TableRises(13, 14);
      assert KEY_TABLE[13..14] == BGWRITER_KEYS;
    case MiscLabel =>
      TableRises(14, 24);
      assert KEY_TABLE[14..24] == MISC_KEYS;
  }

  /** The groups of any configuration share no parameter. */
  lemma GroupsAreGood(c: SystemConfig, p: Profile, linux: bool)
    ensures GoodGroups(Groups(c, p, linux))
  {
    hide GroupKeys;
    hide KeyIndex;
    hide Known;
    var groups := Groups(c, p, linux);
    GroupKeysRise(MemoryLabel, c, linux);
    GroupKeysRise(ParallelLabel, c, linux);
    GroupKeysRise(WALLabel, c, linux);
    GroupKeysRise(BgwriterLabel, c, linux);
    GroupKeysRise(MiscLabel, c, linux);
    EmptyIsGood(24);
    var k5 := KeysOf(groups[5..]);
    assert groups[4..][1..] == groups[5..];
    DistinctJoin(groups[4].keys, k5, 14, 24);
    var k4 := KeysOf(groups[4..]);
    assert groups[3..][1..] == groups[4..];
    DistinctJoin(groups[3].keys, k4, 13, 14);
    var k3 := KeysOf(groups[3..]);
    assert groups[2..][1..] == groups[3..];
    DistinctJoin(groups[2].keys, k3, 8, 13);
    var k2 := KeysOf(groups[2..]);
    assert groups[1..][1..] == groups[2..];
    DistinctJoin(groups[1].keys, k2, 4, 8);
    DistinctJoin(groups[0].keys, KeysOf(groups[1..]), 0, 4);
  }

  function Start(name: Label): nat {
    match name
    case MemoryLabel => 0
    case ParallelLabel => 4
    case WALLabel => 8
    case BgwriterLabel => 13
    case MiscLabel => 14
  }

  function LabelAt(i: nat): Label {
    if i < 4 then MemoryLabel else if i < 8 then ParallelLabel else if i < 13 then WALLabel else if i < 14 then BgwriterLabel else MiscLabel
  }

  lemma InTable(name: Label, c: SystemConfig, linux: bool, j: nat)
    requires j < |GroupKeys(name, c, linux)|
    ensures Start(name) + j < 24 && LabelAt(Start(name) + j) == name && KEY_TABLE[Start(name) + j] == GroupKeys(name, c, linux)[j]
  {
  }

  /** Every parameter belongs to a group, except for one before PostgreSQL 10 and one that only Linux has. */
  lemma GroupsCoverTable(c: SystemConfig, linux: bool, i: nat)
    requires i < |KEY_TABLE|
    ensures (exists name :: KEY_TABLE[i] in GroupKeys(name, c, linux)) <==>
            (i == 7 ==> c.pgMajorVersion != "9.6") && (i == 23 ==> linux)
    ensures KEY_TABLE[7] == MAX_PARALLEL_WORKERS && KEY_TABLE[23] == EFFECTIVE_IO
  {
    TableIndex();
    hide KeyIndex;
    forall name | KEY_TABLE[i] in GroupKeys(name, c, linux)
      ensures name == LabelAt(i) && i - Start(name) < |GroupKeys(name, c, linux)|
    {
      var j :| 0 <= j < |GroupKeys(name, c, linux)| && GroupKeys(name, c, linux)[j] == KEY_TABLE[i];
      InTable(name, c, linux, j);
      assert KeyIndex(KEY_TABLE[Start(name) + j]) == KeyIndex(KEY_TABLE[i]);
      hide KEY_TABLE;
    }
    var d := i - Start(LabelAt(i));
    if d < |GroupKeys(LabelAt(i), c, linux)| {
      InTable(LabelAt(i), c, linux, d);
    }
  }

  lemma EmptyIsGood(lo: int)
    ensures Distinct([]) && Known([]) && AtLeast([], lo)
  {
  }

  // ---------------------------------------------------------------- the shared-library phase

  /** The selected shared-library line is in order: updating it changes nothing. */
  predicate SharedInOrder(lines: seq<string>) {
    FindShared(lines).Some? &&
    var r := FindShared(lines).value;
    !r.commented && r.hasTimescale && WellPlaced(lines[r.idx]) && UpdateLine(lines[r.idx], r) == lines[r.idx]
  }

  lemma UpdateIgnoresIndex(line: string, r: SharedLibResult, i: nat)
    ensures UpdateLine(line, r.(idx := i)) == UpdateLine(line, r)
  {
    hide ReplaceFirst;
  }

  lemma FindSharedFacts(lines: seq<string>)
    ensures match FindShared(lines)
            case None => forall j :: 0 <= j < |lines| ==> !IsSharedLine(lines[j])
            case Some(r) =>
              r.idx < |lines| && IsSharedLine(lines[r.idx]) && r == ParseLine(lines[r.idx]).value.(idx := r.idx) &&
              forall j :: r.idx < j < |lines| ==> !IsSharedLine(lines[j])
  {
    hide ParseLine;
    var last := Last(lines, SharedLines());
    assert forall j :: 0 <= j < |lines| ==> SharedLines()(lines[j]) == IsSharedLine(lines[j]);
  }

  lemma FindSharedIs(lines: seq<string>, i: nat)
    requires i < |lines| && IsSharedLine(lines[i])
    requires forall j :: i < j < |lines| ==> !IsSharedLine(lines[j])
    ensures FindShared(lines) == Some(ParseLine(lines[i]).value.(idx := i))
  {
    hide ParseLine;
    LastIs(lines, SharedLines(), i);
  }

  /** The line appended when there is none. */
  lemma PlainLineInOrder()
    ensures IsSharedLine(PLAIN_SHARED_LINE) && WellPlaced(PLAIN_SHARED_LINE) && Clean(PLAIN_SHARED_LINE)
    ensures var r := ParseLine(PLAIN_SHARED_LINE).value;
            !r.commented && r.hasTimescale && r.libs == EXT_NAME && UpdateLine(PLAIN_SHARED_LINE, r) == PLAIN_SHARED_LINE
  {
    PlainLineSplit();
    PlainLineClean();
    hide SharedSplit;
    hide ParseLine;
    hide Clean;
    SharedComplete(PLAIN_SHARED_LINE, "", "", EXT_NAME, "");
    SelfContained();
    UpdateIsIdentityIff(PLAIN_SHARED_LINE);
  }

  lemma SelfContained()
    ensures Contains(EXT_NAME, EXT_NAME)
  {
    assert OccursAt(EXT_NAME, EXT_NAME, 0);
  }

  lemma PlainLineSplit()
    ensures SharedSplit(PLAIN_SHARED_LINE, "", "", EXT_NAME, "")
  {
    assert LIB_KEY + EXT_NAME + "'" == "" + "" + LIB_KEY + EXT_NAME + "'" + "";
  }

  /** The line processQuiet parses in its place. */
  lemma PlainLineIsShared()
    ensures IsSharedLine(PLAIN_SHARED_LINE_WITH_COMMENTS)
  {
    PlainLineSplit();
    assert PLAIN_SHARED_LINE + SHARED_COMMENT == "" + "" + LIB_KEY + EXT_NAME + "'" + SHARED_COMMENT;
    hide ParseLine;
    SharedComplete(PLAIN_SHARED_LINE_WITH_COMMENTS, "", "", EXT_NAME, SHARED_COMMENT);
  }

  lemma PlainLineClean()
    ensures Clean(PLAIN_SHARED_LINE)
  {
    LibKeyChars();
    assert '\n' !in LIB_KEY && '\n' !in EXT_NAME;
  }

  lemma SharedAppended(lines: seq<string>)
    requires FindShared(lines).None?
    ensures var out := lines + [PLAIN_SHARED_LINE];
            SharedInOrder(out) && Agree(lines, out) && (AllClean(lines) ==> AllClean(out))
  {
    hide ParseLine;
    hide FindShared;
    hide FindKey;
    hide WellPlaced;
    hide UpdateLine;
    hide Clean;
    hide PLAIN_SHARED_LINE;
    PlainLineInOrder();
    var out := lines + [PLAIN_SHARED_LINE];
    FindSharedIs(out, |lines|);
    UpdateIgnoresIndex(PLAIN_SHARED_LINE, ParseLine(PLAIN_SHARED_LINE).value, |lines|);
    forall k | k in ALL_KEYS
      ensures FindKey(out, k) == FindKey(lines, k)
      ensures FindKey(lines, k).Some? ==> FindKey(lines, k).value.idx < |lines|
    {
      FindKeyAfterAppend(lines, PLAIN_SHARED_LINE, k);
      FindKeyInRange(lines, k);
    }
  }

  /** An updated line has the end of the line it replaces, or ends in the closing quote. */
  lemma UpdatedIsClean(s: string, indent: string, group: string, libs: string, rest: string)
    requires SharedSplit(s, indent, group, libs, rest) && Clean(s)
    ensures Clean(Updated(indent, libs, rest))
  {
    hide Contains;
    SharedIndex(s, indent, group, libs, rest);
    ExtensionIn(libs);
    LibKeyChars();
    var w := WithExtension(libs);
    hide WithExtension;
    assert '\n' !in indent && '\n' !in rest && '\n' !in LIB_KEY;
    var head := indent + "" + LIB_KEY + w + "'";
    assert '\n' !in head && head[|head| - 1] == '\'';
    assert |rest| > 0 ==> rest[|rest| - 1] == s[|s| - 1];
  }

  lemma SharedReplaced(lines: seq<string>)
    requires FindShared(lines).Some? && WellPlaced(lines[FindShared(lines).value.idx])
    ensures var out := SetShared(lines, FindShared(lines));
            && |out| == |lines| && SharedInOrder(out) && Agree(lines, out)
            && (forall j :: 0 <= j < |lines| && j != FindShared(lines).value.idx ==> out[j] == lines[j])
            && (AllClean(lines) ==> AllClean(out))
  {
    hide ParseLine;
    hide FindShared;
    hide FindKey;
    hide WellPlaced;
    hide UpdateLine;
    hide Clean;
    hide SharedSplit;
    hide WithExtension;
    hide MatchStart;
    hide Updated;
    hide Contains;
    FindSharedFacts(lines);
    var r := FindShared(lines).value;
    var i := r.idx;
    var line := lines[i];
    UpdateIgnoresIndex(line, ParseLine(line).value, i);
    var u := UpdateLine(line, r);
    var rest := UpdateLibraries(line);
    var out := lines[i := u];
    FindSharedIs(out, i);
    UpdateIgnoresIndex(u, ParseLine(u).value, i);
    forall k | k in ALL_KEYS
      ensures FindKey(out, k) == FindKey(lines, k)
      ensures FindKey(lines, k).Some? ==> FindKey(lines, k).value.idx < |lines| && out[FindKey(lines, k).value.idx] == lines[FindKey(lines, k).value.idx]
    {
      FindKeyAfterUpdate(lines, i, u, k);
      FindKeyFacts(lines, k);
    }
    if Clean(line) {
      UpdatedIsClean(line, line[..MatchStart(line)], ParseLine(line).value.commentGroup, ParseLine(line).value.libs, rest);
    }
  }

  /** On any lines, the shared-library phase changes the selected line or appends one, and leaves the lines of parameters alone. */
  lemma SharedTouches(lines: seq<string>)
    ensures var found := FindShared(lines);
            (found.Some? ==> found.value.idx < |lines|) &&
            var out := SetShared(lines, found);
            && SameAt(lines, out)
            && Changed(lines, out) == (if out == lines then 0 else 1)
            && (forall j :: 0 <= j < |lines| && out[j] != lines[j] ==> found.Some? && found.value.idx == j)
            && (forall j :: |lines| <= j < |out| ==> found.None? && out[j] == PLAIN_SHARED_LINE)
  {
    hide ParseLine;
    hide ParseKey;
    hide FindShared;
    hide FindKey;
    hide UpdateLine;
    hide PLAIN_SHARED_LINE;
    hide Changed;
    FindSharedFacts(lines);
    forall k | k in ALL_KEYS && FindKey(lines, k).Some?
      ensures FindKey(lines, k).value.idx < |lines| && !IsSharedLine(lines[FindKey(lines, k).value.idx])
    {
      FindKeyFacts(lines, k);
    }
    hide ALL_KEYS;
    hide IsSharedLine;
    ChangedZeroIff(lines, lines);
    match FindShared(lines)
    case None => ChangedAppend(lines, lines, PLAIN_SHARED_LINE);
    case Some(r) =>
      var u := UpdateLine(lines[r.idx], r);
      if u == lines[r.idx] {
        assert lines[r.idx := u] == lines;
      } else {
        ChangedUpdate(lines, lines, r.idx, u);
      }
  }
}
