/**
  The library list as PostgreSQL takes it apart: elements between commas, without the white space
  around them.  The program looks for the text of the name instead.
 */
module Libraries {
  import opened Text
  import opened Regex
  import opened TuneSettings
  import opened SharedPreloadLibs

  function SplitCommas(libs: string): (r: seq<string>)
    ensures |r| >= 1
    decreases |libs|
  {
    match IndexFrom(libs, ",", 0)
    case None => [libs]
    case Some(i) => [libs[..i]] + SplitCommas(libs[i + 1..])
  }

  function Trimmed(s: string): string {
    TrimRight(TrimLeft(s, IsSpace), IsSpace)
  }

  /** The name is an element of the list. */
  predicate Lists(libs: string, name: string) {
    exists i :: 0 <= i < |SplitCommas(libs)| && Trimmed(SplitCommas(libs)[i]) == name
  }

  lemma {:induction false} AppendElement(libs: string, name: string)
    requires ',' !in name
    ensures SplitCommas(libs + "," + name) == SplitCommas(libs) + [name]
    decreases |libs|
  {
    hide OccursAt;
    match IndexFrom(libs, ",", 0)
    case None =>
      CommaAt(libs, name, |libs|);
      NoComma(name);
    case Some(i) =>
      OccursSingle(libs, ',', i);
      CommaAt(libs, name, i);
      CommaParts(libs, name, i);
      hide IndexFrom;
      AppendElement(libs[i + 1..], name);
      JoinThree([libs[..i]], SplitCommas(libs[i + 1..]), [name]);
  }

  lemma JoinThree(a: seq<string>, b: seq<string>, c: seq<string>)
    ensures a + (b + c) == (a + b) + c
  {
  }

  lemma CommaParts(libs: string, name: string, i: nat)
    requires i < |libs|
    ensures (libs + "," + name)[..i] == libs[..i] && (libs + "," + name)[i + 1..] == libs[i + 1..] + "," + name
  {
  }

  lemma CommaAt(libs: string, name: string, i: nat)
    requires i <= |libs| && (i < |libs| ==> libs[i] == ',')
    requires forall j :: 0 <= j < i ==> !OccursAt(libs, ",", j)
    ensures IndexFrom(libs + "," + name, ",", 0) == Some(i)
    ensures i == |libs| ==> (libs + "," + name)[..i] == libs && (libs + "," + name)[i + 1..] == name
  {
    var s := libs + "," + name;
    OccursSingle(s, ',', i);
    forall j | 0 <= j < i ensures !OccursAt(s, ",", j) {
      OccursSingle(libs, ',', j);
      OccursSingle(s, ',', j);
    }
  }

  lemma NoComma(name: string)
    requires ',' !in name
    ensures SplitCommas(name) == [name]
  {
    match IndexFrom(name, ",", 0)
    case None =>
    case Some(i) => OccursSingle(name, ',', i);
  }

  /** An element is part of the text of the list. */
  lemma {:induction false} ElementOccurs(libs: string, k: nat)
    requires k < |SplitCommas(libs)|
    ensures Contains(libs, Trimmed(SplitCommas(libs)[k]))
    decreases |libs|
  {
    var e := Trimmed(SplitCommas(libs)[k]);
    match IndexFrom(libs, ",", 0)
    case None =>
      var i := TrimmedOccurs(libs);
      assert OccursAt(libs, e, i);
    case Some(i) =>
      OccursSingle(libs, ',', i);
      if k == 0 {
        var j := TrimmedOccurs(libs[..i]);
        OccursWithin(libs, 0, i, e, j);
      } else {
        ElementOccurs(libs[i + 1..], k - 1);
        assert libs[i + 1..] == libs[i + 1..|libs|];
        OccursWithin(libs, i + 1, |libs|, e, IndexFrom(libs[i + 1..], e, 0).value);
      }
  }

  lemma OccursWithin(s: string, lo: nat, hi: nat, t: string, j: nat)
    requires lo <= hi <= |s| && OccursAt(s[lo..hi], t, j)
    ensures Contains(s, t)
  {
    var at := s[lo + j..lo + j + |t|];
    forall k | 0 <= k < |t| ensures at[k] == t[k] {
      assert s[lo..hi][j..j + |t|][k] == s[lo..hi][j + k];
    }
    assert at == t;
    assert OccursAt(s, t, lo + j);
  }

  lemma TrimmedOccurs(s: string) returns (i: nat)
    ensures OccursAt(s, Trimmed(s), i)
  {
    i := LeftTrimmed(s);
    var n := RightTrimmed(s[i..]);
    assert s[i..][..n] == s[i..i + n];
  }

  lemma {:induction false} LeftTrimmed(s: string) returns (i: nat)
    ensures i <= |s| && TrimLeft(s, IsSpace) == s[i..]
    decreases |s|
  {
    i := 0;
    if |s| > 0 && IsSpace(s[0]) {
      var j := LeftTrimmed(s[1..]);
      i := j + 1;
    }
  }

  lemma {:induction false} RightTrimmed(s: string) returns (n: nat)
    ensures n <= |s| && TrimRight(s, IsSpace) == s[..n]
    decreases |s|
  {
    n := |s|;
    if |s| > 0 && IsSpace(s[|s| - 1]) {
      n := RightTrimmed(s[..|s| - 1]);
      assert s[..|s| - 1][..n] == s[..n];
    }
  }

  lemma NameIsPlain()
    ensures ',' !in EXT_NAME && Trimmed(EXT_NAME) == EXT_NAME && EXT_NAME != ""
  {
    assert EXT_NAME[0] == 't' && EXT_NAME[|EXT_NAME| - 1] == 'b';
  }

  /**
    After the update the extension is an element of the list exactly when it was one, or when its name
    was nowhere in the text of the list; all the elements there were stay in place.
   */
  lemma ListsExtensionIff(libs: string)
    ensures Lists(WithExtension(libs), EXT_NAME) <==> Lists(libs, EXT_NAME) || !Contains(libs, EXT_NAME)
    ensures Lists(libs, EXT_NAME) ==> Contains(libs, EXT_NAME)
    ensures libs != "" ==> SplitCommas(libs) <= SplitCommas(WithExtension(libs))
  {
    hide Contains;
    hide Trimmed;
    NameIsPlain();
    if i :| 0 <= i < |SplitCommas(libs)| && Trimmed(SplitCommas(libs)[i]) == EXT_NAME {
      ElementOccurs(libs, i);
    }
    if !Contains(libs, EXT_NAME) {
      hide EXT_NAME;
      var w := WithExtension(libs);
      if libs == "" {
        NoComma(EXT_NAME);
        assert w == EXT_NAME;
        assert Trimmed(SplitCommas(w)[0]) == EXT_NAME;
      } else {
        AppendElement(libs, EXT_NAME);
        assert w == libs + "," + EXT_NAME;
        assert SplitCommas(w)[|SplitCommas(libs)|] == EXT_NAME;
      }
    }
  }

  const TOOLKIT := EXT_NAME + "_toolkit"

  /** A library whose name only starts like the extension's passes for it: this active line is left as it is. */
  lemma ToolkitPasses()
    ensures var line := LIB_KEY + TOOLKIT + "'";
            && ParseLine(line) == Some(SharedLibResult(0, false, true, "", TOOLKIT))
            && UpdateLine(line, ParseLine(line).value) == line
            && !Lists(TOOLKIT, EXT_NAME)
  {
    hide ParseLine;
    var line := LIB_KEY + TOOLKIT + "'";
    assert line == "" + "" + LIB_KEY + TOOLKIT + "'" + "";
    ToolkitText();
    hide TOOLKIT;
    hide Contains;
    hide Trimmed;
    SharedComplete(line, "", "", TOOLKIT, "");
    NoComma(TOOLKIT);
    hide EXT_NAME;
  }

  lemma ToolkitText()
    ensures '\'' !in TOOLKIT && ',' !in TOOLKIT && OneLine(TOOLKIT) && Contains(TOOLKIT, EXT_NAME)
    ensures Trimmed(TOOLKIT) == TOOLKIT && TOOLKIT != EXT_NAME
  {
    assert TOOLKIT[..|EXT_NAME|] == EXT_NAME;
    assert OccursAt(TOOLKIT, EXT_NAME, 0);
    assert TOOLKIT[0] == 't' && TOOLKIT[|TOOLKIT| - 1] == 't';
  }
}
