/** The lines the tuner writes: none of them is mistaken for another kind of line when the file is read again. */
module LineKinds {
  import opened Text
  import opened Regex
  import opened TuneSettings
  import opened LineGrammar
  import opened SharedPreloadLibs

  const LIB_NAME := "shared_preload_libraries"

  lemma QuoteOfName(s: string, p: nat, q: nat)
    requires NameAndQuote(s, p, q)
    ensures p + 28 <= q < |s| && s[p + 27] == '\'' && s[q] == '\''
    ensures forall i :: 0 <= i < 28 ==> s[p + i] == LIB_KEY[i]
  {
    LibKeyChars();
    forall i | 0 <= i < 28 ensures s[p + i] == LIB_KEY[i] {
      OccursChar(s, LIB_KEY, p, i);
    }
  }

  /** A tail cannot start inside the name: after white space it has a # or ends. */
  lemma TailInsideName(extra: string, d: nat)
    requires IsTail(extra) && 0 < d < 28 && |extra| >= 28 - d
    ensures exists i :: 0 <= i < 28 - d && extra[i] != LIB_KEY[d + i]
  {
    LibKeyChars();
    var n := RunLength(Space, extra, 0);
    assert extra[0] != LIB_KEY[d] || (d + 1 < 28 && extra[1] != LIB_KEY[d + 1]);
  }

  lemma NameInTail(head: string, extra: string, p: nat, q: nat)
    requires '\'' !in head && IsTail(extra) && NameAndQuote(head + extra, p, q)
    ensures p >= |head|
  {
    hide IsTail;
    var s := head + extra;
    assert forall i :: 0 <= i < |head| ==> s[i] == head[i];
    QuoteOfName(s, p, q);
    if p < |head| {
      var d := |head| - p;
      assert forall i :: 0 <= i < 28 - d ==> extra[i] == s[p + (d + i)];
      TailInsideName(extra, d);
    }
  }

  /** Rewriting a parameter line does not turn it into a shared-library line. */
  lemma TunableNotShared(key: string, v: string, extra: string, prior: string)
    requires KeyLike(key) && GoodValue(v) && IsTail(extra)
    requires |extra| <= |prior| && prior[|prior| - |extra|..] == extra && !IsSharedLine(prior)
    ensures !IsSharedLine(TunableLine(key, v, extra))
  {
    hide IsTail;
    hide IsSharedLine;
    hide NameAndQuote;
    var head := key + " = " + v;
    var s := TunableLine(key, v, extra);
    assert s == head + extra && '\'' !in head;
    SharedIff(s);
    SharedIff(prior);
    forall p: nat, q: nat | NameAndQuote(s, p, q) ensures false {
      NameInTail(head, extra, p, q);
      SharedInTail(prior, extra, s, p, q);
    }
  }

  lemma SharedInTail(prior: string, extra: string, s: string, p: nat, q: nat)
    requires |extra| <= |prior| && prior[|prior| - |extra|..] == extra
    requires |extra| <= |s| && s[|s| - |extra|..] == extra
    requires NameAndQuote(s, p, q) && p >= |s| - |extra|
    ensures exists a: nat, b: nat :: NameAndQuote(prior, a, b)
  {
    QuoteOfName(s, p, q);
    var h, g := |s| - |extra|, |prior| - |extra|;
    var a, b := p - h + g, q - h + g;
    forall i | p <= i < |s| ensures s[i] == prior[i - h + g] {
      assert s[i] == extra[i - h] && prior[i - h + g] == extra[i - h];
    }
    assert prior[a..a + 28] == s[p..p + 28];
    var u, w := prior[a + 28..b], s[p + 28..q];
    forall i | 0 <= i < |u| ensures u[i] == w[i] {
      assert u[i] == prior[a + 28 + i];
    }
    assert u == w;
    assert NameAndQuote(prior, a, b);
  }

  /** The tuner's own lines are not shared-library lines. */
  lemma ParamNotShared(param: string, v: string)
    requires KeyLike(param) && param[|param| - 1] != 's' && '\'' !in v
    ensures !IsSharedLine(ParamLine(param, v))
  {
    hide IsSharedLine;
    var s := ParamLine(param, v);
    SharedIff(s);
    LibKeyChars();
    var a := |param| + 3;
    assert forall i :: 0 <= i < |param| ==> s[i] == param[i];
    assert forall i :: a < i < a + 1 + |v| ==> s[i] == v[i - a - 1];
    assert forall i :: 0 <= i < |s| && s[i] == '\'' ==> i == a || i == |s| - 1;
    forall p: nat, q: nat | NameAndQuote(s, p, q) ensures false {
      QuoteOfName(s, p, q);
    }
  }

  /** An indented shared-library line is not a line of any parameter. */
  lemma SharedNotParam(s: string, param: string)
    requires IsSharedLine(s) && WellPlaced(s) && KeyLike(param) && param != LIB_NAME
    ensures ParseParam(s, param).None? && ParseKey(s, param).None?
  {
    hide ParseLine;
    hide Contains;
    hide MatchStart;
    hide KeyLike;
    hide ParseWithRegex;
    hide ValueStart;
    hide SharedSplit;
    var rest := SharedSound(s);
    var r, indent := ParseLine(s).value, s[..MatchStart(s)];
    SharedSubject(s, indent, r.commentGroup, r.libs, rest, param);
    if ParseParam(s, param).Some? || ParseKey(s, param).Some? {
      ParsedHasSubject(s, param);
    }
  }

  lemma SharedSubject(s: string, indent: string, group: string, libs: string, rest: string, param: string)
    requires SharedSplit(s, indent, group, libs, rest) && AllSpace(indent) && KeyLike(param) && param != LIB_NAME
    ensures ValueStart(s, param).None?
  {
    if group == "" && indent != "" {
      SharedIndex(s, indent, group, libs, rest);
      IndentedHasNoSubject(s, indent, param);
    } else {
      var lead := GroupLead(indent, group);
      SharedAsSplits(s, indent, group, libs, rest, lead);
      hide SharedSplit;
      hide Splits;
      hide ValueStart;
      SplitsPosition(s, lead, LIB_NAME, " ", " ", "'" + libs + "'" + rest);
      if ValueStart(s, param).Some? {
        OneSubject(s, param, LIB_NAME);
      }
    }
  }

  lemma IndentedHasNoSubject(s: string, indent: string, param: string)
    requires |indent| < |s| && s[..|indent|] == indent && indent != "" && AllSpace(indent) && KeyLike(param)
    requires !IsSpace(s[|indent|]) && s[|indent|] != '#'
    ensures ValueStart(s, param).None?
  {
    hide RunLength;
    forall i | 0 <= i < |indent| ensures IsSpace(s[i]) {
      assert s[i] == indent[i];
    }
    RunLengthIs(Space, s, 0, |indent|);
    RunLengthIs(Hash, s, |indent|, 0);
    if OccursAt(s, param, 0) {
      OccursChar(s, param, 0, 0);
    }
  }

  lemma GroupLead(indent: string, group: string) returns (lead: Lead)
    requires AllSpace(indent) && IsGroup(group) && (group == "" ==> indent == "")
    ensures lead.Valid() && lead.Text() == indent + group
  {
    lead := Bare;
    if group != "" {
      var h :| 0 < h <= |group| && AllHashes(group[..h]) && AllSpace(group[h..]);
      lead := Commented(indent, group[..h], group[h..]);
      assert group == group[..h] + group[h..];
      assert indent + group[..h] + group[h..] == indent + (group[..h] + group[h..]);
    }
  }

  lemma SharedAsSplits(s: string, indent: string, group: string, libs: string, rest: string, lead: Lead)
    requires SharedSplit(s, indent, group, libs, rest) && lead.Valid() && lead.Text() == indent + group
    ensures Splits(s, lead, LIB_NAME, " ", " ", "'" + libs + "'" + rest)
  {
    hide Lead.Text;
    hide Lead.Valid;
    assert LIB_KEY == LIB_NAME + " = '";
    SameText(indent + group, libs, rest);
  }

  lemma SameText(l: string, libs: string, rest: string)
    ensures l + (LIB_NAME + " = '") + libs + "'" + rest == l + LIB_NAME + " " + "=" + " " + ("'" + libs + "'" + rest)
  {
    assert " = '" == " " + "=" + " " + "'";
  }
}
