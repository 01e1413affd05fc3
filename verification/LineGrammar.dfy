/** What the two line patterns accept, as a grammar, and what follows for printing and re-reading lines. */
module LineGrammar {
  import opened Text
  import opened Regex
  import opened TuneSettings

  function ParseKey(line: string, key: string): Option<ParseResult> {
    ParseWithRegex(line, KeyToRegex(key))
  }

  function ParseParam(line: string, param: string): Option<ParseResult> {
    ParseWithRegex(line, KeyToRegexQuoted(param))
  }

  // ---------------------------------------------------------------- reading `lead key = `

  lemma MiddleIndex(a: string, run: string, b: string)
    ensures forall i :: |a| <= i < |a| + |run| ==> (a + run + b)[i] == run[i - |a|]
    ensures |b| > 0 ==> (a + run + b)[|a| + |run|] == b[0]
  {
  }

  lemma RunAfter(c: Class, a: string, run: string, b: string)
    requires forall i :: 0 <= i < |run| ==> Has(c, run[i])
    requires |b| > 0 ==> !Has(c, b[0])
    ensures RunLength(c, a + run + b, |a|) == |run|
  {
    hide RunLength;
    hide Has;
    var s := a + run + b;
    MiddleIndex(a, run, b);
    assert |s| == |a| + |run| + |b|;
    RunLengthIs(c, s, |a|, |run|);
  }

  lemma LeadPosition(lead: Lead, rest: string)
    requires lead.Valid() && |rest| > 0 && !IsSpace(rest[0]) && rest[0] != '#'
    ensures KeyStart(lead.Text() + rest) == |lead.Text()|
  {
    hide RunLength;
    var s := lead.Text() + rest;
    if lead.Bare? {
      assert s == "" + "" + rest;
      RunAfter(Space, "", "", rest);
      RunAfter(Hash, "", "", rest);
    } else {
      var b, h, a := lead.before, lead.hashes, lead.after;
      assert s == "" + b + (h + a + rest);
      RunAfter(Space, "", b, h + a + rest);
      assert s == b + h + (a + rest);
      RunAfter(Hash, b, h, a + rest);
      assert s == (b + h) + a + rest;
      RunAfter(Space, b + h, a, rest);
    }
  }

  lemma SplitsIndex(s: string, lead: Lead, key: string, ws1: string, ws2: string, rest: string)
    requires Splits(s, lead, key, ws1, ws2, rest)
    ensures var d := |lead.Text()| + |key|;
            var e := d + |ws1|;
            var f := e + 1 + |ws2|;
            f == |s| - |rest| && s[..d - |key|] == lead.Text() && s[d - |key|..d] == key && s[d..e] == ws1 &&
            s[e] == '=' && s[e + 1..f] == ws2 && s[f..] == rest
  {
  }

  lemma SplitsLead(s: string, lead: Lead, key: string, ws1: string, ws2: string, rest: string)
    requires Splits(s, lead, key, ws1, ws2, rest)
    ensures |rest| <= |s| && (lead.Commented? <==> |lead.Text()| > 0)
  {
  }

  lemma SplitsKeyStart(s: string, lead: Lead, key: string, ws1: string, ws2: string, rest: string)
    requires KeyLike(key) && Splits(s, lead, key, ws1, ws2, rest)
    ensures KeyStart(s) == |lead.Text()|
  {
    hide KeyStart;
    var l := lead.Text();
    assert s == l + (key + ws1 + "=" + ws2 + rest);
    LeadPosition(lead, key + ws1 + "=" + ws2 + rest);
  }

  lemma IndexPosition(s: string, key: string, e: nat, f: nat)
    requires KeyStart(s) + |key| <= e < f <= |s|
    requires OccursAt(s, key, KeyStart(s)) && s[e] == '='
    requires AllSpace(s[KeyStart(s) + |key|..e]) && AllSpace(s[e + 1..f])
    requires f < |s| ==> !IsSpace(s[f])
    ensures ValueStart(s, key) == Some(f)
  {
    hide RunLength;
    hide KeyStart;
    var d := KeyStart(s) + |key|;
    forall i | d <= i < e ensures IsSpace(s[i]) {
      assert s[i] == s[d..e][i - d];
    }
    RunLengthIs(Space, s, d, e - d);
    OccursSingle(s, '=', e);
    forall i | e + 1 <= i < f ensures IsSpace(s[i]) {
      assert s[i] == s[e + 1..f][i - e - 1];
    }
    RunLengthIs(Space, s, e + 1, f - e - 1);
  }

  /** A line written as `lead key ws = ws rest` is read that way. */
  lemma SplitsPosition(s: string, lead: Lead, key: string, ws1: string, ws2: string, rest: string)
    requires KeyLike(key) && Splits(s, lead, key, ws1, ws2, rest)
    requires |rest| > 0 ==> !IsSpace(rest[0])
    ensures KeyStart(s) == |lead.Text()|
    ensures ValueStart(s, key) == Some(|s| - |rest|)
    ensures s[|s| - |rest|..] == rest
  {
    hide KeyStart;
    hide ValueStart;
    hide KeyLike;
    SplitsIndex(s, lead, key, ws1, ws2, rest);
    SplitsKeyStart(s, lead, key, ws1, ws2, rest);
    var e := |lead.Text()| + |key| + |ws1|;
    IndexPosition(s, key, e, e + 1 + |ws2|);
  }

  lemma LeadPieces(s: string, a: nat, b: nat, c: nat)
    requires a <= b <= c <= |s|
    requires forall i :: 0 <= i < a ==> Has(Space, s[i])
    requires forall i :: a <= i < b ==> Has(Hash, s[i])
    requires forall i :: b <= i < c ==> Has(Space, s[i])
    ensures AllSpace(s[..a]) && AllHashes(s[a..b]) && AllSpace(s[b..c])
    ensures s[..a] + s[a..b] + s[b..c] == s[..c]
  {
  }

  function LeadOf(s: string): (lead: Lead)
    ensures lead.Valid() && |lead.Text()| == KeyStart(s) && lead.Text() == s[..KeyStart(s)]
  {
    var a := RunLength(Space, s, 0);
    var h := RunLength(Hash, s, a);
    if h == 0 then Bare
    else
      var b := a + h;
      var c := b + RunLength(Space, s, b);
      LeadPieces(s, a, b, c);
      Commented(s[..a], s[a..b], s[b..c])
  }

  lemma CutAt(s: string, lead: string, key: string, d: nat, e: nat, f: nat)
    requires |lead| + |key| == d <= e < f <= |s| && s[..|lead|] == lead && s[|lead|..d] == key && s[e] == '='
    ensures s == lead + key + s[d..e] + "=" + s[e + 1..f] + s[f..]
  {
    assert s[e..e + 1] == "=";
  }

  lemma {:induction false} ValueStartParts(s: string, key: string)
    requires ValueStart(s, key).Some?
    ensures var d := KeyStart(s) + |key|;
            d <= |s| && s[KeyStart(s)..d] == key &&
            var e := d + RunLength(Space, s, d);
            e < |s| && s[e] == '=' && ValueStart(s, key).value == e + 1 + RunLength(Space, s, e + 1)
  {
    hide RunLength;
    hide KeyStart;
    var d := KeyStart(s) + |key|;
    OccursSingle(s, '=', d + RunLength(Space, s, d));
  }

  /** A line that reads as `key = ` is written that way. */
  lemma PositionSplits(s: string, key: string) returns (ws1: string, ws2: string)
    requires ValueStart(s, key).Some?
    ensures var f := ValueStart(s, key).value;
            Splits(s, LeadOf(s), key, ws1, ws2, s[f..]) && (f < |s| ==> !IsSpace(s[f]))
  {
    hide RunLength;
    hide KeyStart;
    hide LeadOf;
    hide AllSpace;
    hide Lead.Text;
    hide Lead.Valid;
    ValueStartParts(s, key);
    var f := ValueStart(s, key).value;
    hide ValueStart;
    var d := KeyStart(s) + |key|;
    var e := d + RunLength(Space, s, d);
    ws1, ws2 := s[d..e], s[e + 1..f];
    RunIsSpace(s, d);
    RunIsSpace(s, e + 1);
    CutAt(s, LeadOf(s).Text(), key, d, e, f);
  }

  lemma RunIsSpace(s: string, i: nat)
    requires i <= |s|
    ensures AllSpace(s[i..i + RunLength(Space, s, i)])
  {
    hide RunLength;
    var run := s[i..i + RunLength(Space, s, i)];
    forall k | 0 <= k < |run| ensures IsSpace(run[k]) {
      assert Has(Space, s[i + k]);
    }
  }

  // ---------------------------------------------------------------- the grammar theorems

  /** The value the unquoted pattern captures: the first place where a tail can start. */
  lemma PlainEnds(s: string, f: nat, v: string, extra: string)
    requires f <= |s| && PlainSplit(s[f..], v, extra)
    ensures FirstTail(s, f + 1, f + RunLength(NonSpace, s, f)) == Some(f + |v|)
    ensures s[f..f + |v|] == v && s[f + |v|..] == extra
  {
    hide TailAt;
    hide RunLength;
    hide FirstTail;
    var e := f + |v|;
    assert s[f..][..|v|] == v && s[f..][|v|..] == extra;
    assert s[f..e] == v && s[e..] == extra;
    TailDrop(s, e);
    forall i | f <= i < e ensures !IsSpace(s[i]) {
      assert s[i] == v[i - f];
    }
    RunAtLeast(NonSpace, s, f, |v|);
    forall j | f + 1 <= j < e ensures !TailAt(s, j) {
      TailDrop(s, j);
      assert s[f..][j - f..] == s[j..];
    }
  }

  lemma PlainEndsSplit(s: string, f: nat, e: nat)
    requires f <= |s| && FirstTail(s, f + 1, f + RunLength(NonSpace, s, f)) == Some(e)
    ensures PlainSplit(s[f..], s[f..e], s[e..])
  {
    hide TailAt;
    hide RunLength;
    hide FirstTail;
    assert s[f..] == s[f..e] + s[e..];
    TailDrop(s, e);
    forall n | 1 <= n < e - f ensures !IsTail(s[f..][n..]) {
      TailDrop(s, f + n);
      assert s[f..][n..] == s[f + n..];
    }
  }

  /** Printing direction: a line of the grammar is parsed into exactly its parts. */
  lemma PlainComplete(s: string, lead: Lead, key: string, ws1: string, ws2: string, v: string, extra: string)
    requires KeyLike(key) && Splits(s, lead, key, ws1, ws2, v + extra) && PlainSplit(v + extra, v, extra)
    ensures ParseKey(s, key) == Some(ParseResult(0, lead.Commented?, key, v, extra))
  {
    hide TailAt;
    hide RunLength;
    hide FirstTail;
    hide KeyStart;
    hide ValueStart;
    hide ParseWithRegex;
    hide KeyLike;
    ValueComesFirst(v, extra);
    hide PlainSplit;
    SplitsPosition(s, lead, key, ws1, ws2, v + extra);
    PlainEnds(s, |s| - |v + extra|, v, extra);
    ParsePlain(s, key);
    SplitsLead(s, lead, key, ws1, ws2, v + extra);
    hide Splits;
    hide Lead.Text;
  }

  lemma ValueComesFirst(v: string, extra: string)
    requires PlainSplit(v + extra, v, extra)
    ensures |v| > 0 && !IsSpace((v + extra)[0])
  {
  }

  lemma LeadIsMark(s: string)
    ensures LeadOf(s).Commented? <==> KeyStart(s) > 0
  {
    hide RunLength;
  }

  /** Parsing direction: a parsed line comes apart as the grammar says. */
  lemma PlainSound(s: string, key: string, r: ParseResult) returns (ws1: string, ws2: string)
    requires KeyLike(key) && ParseKey(s, key) == Some(r)
    ensures r.idx == 0 && r.key == key && PlainSplit(r.value + r.extra, r.value, r.extra)
    ensures LeadOf(s).Commented? == r.commented && Splits(s, LeadOf(s), key, ws1, ws2, r.value + r.extra)
  {
    hide TailAt;
    hide RunLength;
    hide FirstTail;
    hide KeyStart;
    hide ValueStart;
    hide ParseWithRegex;
    hide Splits;
    hide PlainSplit;
    hide KeyLike;
    hide Lead.Text;
    LeadIsMark(s);
    hide LeadOf;
    ParsePlain(s, key);
    var f := ValueStart(s, key).value;
    var e := FirstTail(s, f + 1, f + RunLength(NonSpace, s, f)).value;
    PlainEndsSplit(s, f, e);
    assert s[f..] == s[f..e] + s[e..];
    ws1, ws2 := PositionSplits(s, key);
  }

  /** The unquoted parser accepts exactly the lines of the grammar, with the shortest value. */
  lemma PlainGrammar(s: string, key: string, r: ParseResult)
    requires KeyLike(key)
    ensures ParseKey(s, key) == Some(r) <==>
            r.idx == 0 && r.key == key && PlainSplit(r.value + r.extra, r.value, r.extra) &&
            exists lead: Lead, ws1, ws2 ::
              lead.Commented? == r.commented && Splits(s, lead, key, ws1, ws2, r.value + r.extra)
  {
    hide TailAt;
    hide RunLength;
    hide FirstTail;
    hide KeyStart;
    hide LeadOf;
    hide ValueStart;
    hide ParseWithRegex;
    if ParseKey(s, key) == Some(r) {
      var ws1, ws2 := PlainSound(s, key, r);
    } else if PlainSplit(r.value + r.extra, r.value, r.extra) && r.idx == 0 && r.key == key {
      forall lead: Lead, ws1, ws2 | Splits(s, lead, key, ws1, ws2, r.value + r.extra)
        ensures lead.Commented? != r.commented
      {
        PlainComplete(s, lead, key, ws1, ws2, r.value, r.extra);
      }
    }
  }

  lemma QuotedPieces(t: string, v: string, extra: string)
    requires t == "'" + v + "'" + extra
    ensures t[0] == '\'' && t[1..1 + |v|] == v && t[1 + |v|] == '\'' && t[2 + |v|..] == extra
  {
  }

  lemma QuotedEnds(s: string, f: nat, v: string, extra: string)
    requires f <= |s| && QuotedSplit(s[f..], v, extra)
    ensures f < |s| && s[f] == '\''
    ensures FirstQuoteEnd(s, f + 2, f + 1 + RunLength(Dot, s, f + 1)) == Some(f + 1 + |v|)
    ensures s[f + 1..f + 1 + |v|] == v && s[f + 2 + |v|..] == extra
  {
    hide TailAt;
    hide RunLength;
    hide FirstQuoteEnd;
    hide IsTail;
    var t := s[f..];
    var e := f + 1 + |v|;
    QuotedPieces(t, v, extra);
    assert s[f + 1..e] == t[1..1 + |v|] && s[e + 1..] == t[2 + |v|..] && s[e] == t[e - f];
    TailDrop(s, e + 1);
    forall i | f + 1 <= i < e ensures s[i] != '\n' {
      assert s[i] == v[i - f - 1];
    }
    RunAtLeast(Dot, s, f + 1, |v|);
    assert QuoteEndsAt(s, e);
    forall j | f + 2 <= j < e ensures !QuoteEndsAt(s, j) {
      QuoteInside(s, f, v, extra, j);
    }
  }

  lemma QuoteInside(s: string, f: nat, v: string, extra: string, j: nat)
    requires f <= |s| && QuotedSplit(s[f..], v, extra) && f + 2 <= j < f + 1 + |v|
    ensures !QuoteEndsAt(s, j)
  {
    hide TailAt;
    hide IsTail;
    var t := s[f..];
    assert |t| > |v| + 1;
    TailDrop(s, j + 1);
    assert t[j - f] == s[j] && t[j - f + 1..] == s[j + 1..];
  }

  lemma {:induction false} QuotedEndsSplit(s: string, f: nat, e: nat)
    requires f < |s| && s[f] == '\''
    requires FirstQuoteEnd(s, f + 2, f + 1 + RunLength(Dot, s, f + 1)) == Some(e)
    ensures QuotedSplit(s[f..], s[f + 1..e], s[e + 1..])
  {
    hide TailAt;
    hide RunLength;
    hide FirstQuoteEnd;
    assert QuoteEndsAt(s, e);
    var t, v := s[f..], s[f + 1..e];
    forall i | 0 <= i < |v| ensures v[i] != '\n' {
      assert Has(Dot, s[f + 1 + i]);
    }
    assert t == "'" + v + "'" + s[e + 1..];
    TailDrop(s, e + 1);
    forall n | 2 <= n <= |v| ensures !(t[n] == '\'' && IsTail(t[n + 1..])) {
      TailDrop(s, f + n + 1);
      assert t[n + 1..] == s[f + n + 1..] && t[n] == s[f + n];
      assert !QuoteEndsAt(s, f + n);
    }
  }

  lemma QuotedStart(rest: string, v: string, extra: string)
    requires QuotedSplit(rest, v, extra)
    ensures |rest| > 0 && rest[0] == '\''
  {
  }

  lemma QuotedComplete(s: string, lead: Lead, key: string, ws1: string, ws2: string, rest: string, v: string, extra: string)
    requires KeyLike(key) && Splits(s, lead, key, ws1, ws2, rest) && QuotedSplit(rest, v, extra)
    ensures ParseParam(s, key) == Some(ParseResult(0, lead.Commented?, key, v, extra))
  {
    hide Splits;
    hide QuotedSplit;
    hide Lead.Text;
    hide ParseParam;
    hide KeyLike;
    hide KeyStart;
    hide ValueStart;
    SplitsLead(s, lead, key, ws1, ws2, rest);
    QuotedStart(rest, v, extra);
    SplitsPosition(s, lead, key, ws1, ws2, rest);
    QuotedRead(s, key, |s| - |rest|, v, extra);
  }

  lemma QuotedRead(s: string, key: string, f: nat, v: string, extra: string)
    requires KeyLike(key) && ValueStart(s, key) == Some(f) && QuotedSplit(s[f..], v, extra)
    ensures ParseParam(s, key) == Some(ParseResult(0, KeyStart(s) > 0, key, v, extra))
  {
    hide TailAt;
    hide RunLength;
    hide FirstQuoteEnd;
    hide KeyStart;
    hide ValueStart;
    hide ParseWithRegex;
    hide QuotedSplit;
    hide KeyLike;
    QuotedEnds(s, f, v, extra);
    ParseQuoted(s, key);
  }

  lemma QuotedSplitText(rest: string, v: string, extra: string)
    requires QuotedSplit(rest, v, extra)
    ensures rest == "'" + v + "'" + extra
  {
  }

  lemma QuotedSound(s: string, key: string, r: ParseResult) returns (ws1: string, ws2: string)
    requires KeyLike(key) && ParseParam(s, key) == Some(r)
    ensures r.idx == 0 && r.key == key && QuotedSplit("'" + r.value + "'" + r.extra, r.value, r.extra)
    ensures LeadOf(s).Commented? == r.commented && Splits(s, LeadOf(s), key, ws1, ws2, "'" + r.value + "'" + r.extra)
  {
    hide TailAt;
    hide RunLength;
    hide FirstQuoteEnd;
    hide KeyStart;
    hide ValueStart;
    hide ParseWithRegex;
    hide Splits;
    hide QuotedSplit;
    hide KeyLike;
    hide Lead.Text;
    LeadIsMark(s);
    hide LeadOf;
    ParseQuoted(s, key);
    var f := ValueStart(s, key).value;
    var e := FirstQuoteEnd(s, f + 2, f + 1 + RunLength(Dot, s, f + 1)).value;
    QuotedEndsSplit(s, f, e);
    QuotedSplitText(s[f..], r.value, r.extra);
    ws1, ws2 := PositionSplits(s, key);
  }

  /** The quoted parser accepts exactly the lines of the grammar, with the shortest value. */
  lemma QuotedGrammar(s: string, key: string, r: ParseResult)
    requires KeyLike(key)
    ensures ParseParam(s, key) == Some(r) <==>
            r.idx == 0 && r.key == key && QuotedSplit("'" + r.value + "'" + r.extra, r.value, r.extra) &&
            exists lead: Lead, ws1, ws2 ::
              lead.Commented? == r.commented && Splits(s, lead, key, ws1, ws2, "'" + r.value + "'" + r.extra)
  {
    hide TailAt;
    hide RunLength;
    hide FirstQuoteEnd;
    hide KeyStart;
    hide LeadOf;
    hide ValueStart;
    hide ParseWithRegex;
    hide Splits;
    hide QuotedSplit;
    var rest := "'" + r.value + "'" + r.extra;
    if ParseParam(s, key) == Some(r) {
      var ws1, ws2 := QuotedSound(s, key, r);
    } else if QuotedSplit(rest, r.value, r.extra) && r.idx == 0 && r.key == key {
      forall lead: Lead, ws1, ws2 | Splits(s, lead, key, ws1, ws2, rest)
        ensures lead.Commented? != r.commented
      {
        QuotedComplete(s, lead, key, ws1, ws2, rest, r.value, r.extra);
      }
    }
  }

  // ---------------------------------------------------------------- consequences

  /** No line is a line of two parameters, even when one name is a prefix of the other. */
  lemma OneSubject(s: string, k1: string, k2: string)
    requires KeyLike(k1) && KeyLike(k2)
    requires ValueStart(s, k1).Some? && ValueStart(s, k2).Some?
    ensures k1 == k2
  {
    hide KeyStart;
    if |k1| < |k2| {
      NotAPrefix(s, k1, k2);
    } else if |k2| < |k1| {
      NotAPrefix(s, k2, k1);
    }
  }

  lemma NotAPrefix(s: string, k1: string, k2: string)
    requires KeyLike(k2) && |k1| < |k2|
    requires ValueStart(s, k2).Some?
    ensures ValueStart(s, k1).None?
  {
    hide KeyStart;
    if OccursAt(s, k1, KeyStart(s)) {
      var d := KeyStart(s) + |k1|;
      OccursChar(s, k2, KeyStart(s), |k1|);
      RunLengthIs(Space, s, d, 0);
      OccursSingle(s, '=', d);
    }
  }

  lemma ParsedHasSubject(s: string, k: string)
    requires KeyLike(k) && (ParseKey(s, k).Some? || ParseParam(s, k).Some?)
    ensures ValueStart(s, k).Some?
  {
    hide ValueStart;
    hide ParseWithRegex;
    ParsePlain(s, k);
    ParseQuoted(s, k);
  }

  /** A line read as parameter `k1`, quoted or not, is not read as any other parameter. */
  lemma PatternsDisjoint(s: string, k1: string, k2: string)
    requires KeyLike(k1) && KeyLike(k2) && k1 != k2
    requires ParseKey(s, k1).Some? || ParseParam(s, k1).Some?
    ensures ParseKey(s, k2).None? && ParseParam(s, k2).None?
  {
    hide ParseKey;
    hide ParseParam;
    hide ValueStart;
    ParsedHasSubject(s, k1);
    if ParseKey(s, k2).Some? || ParseParam(s, k2).Some? {
      ParsedHasSubject(s, k2);
      OneSubject(s, k1, k2);
    }
  }

  /** A value that can be printed unquoted and read back: nothing in it ends or comments it. */
  predicate Printable(v: string) {
    |v| > 0 && forall i :: 0 <= i < |v| ==> !IsSpace(v[i]) && v[i] != '#'
  }

  /** One that also cannot close a quote, so that it does not make a library list of a line. */
  predicate GoodValue(v: string) {
    Printable(v) && '\'' !in v
  }

  lemma GoodIsPrintable(v: string)
    requires GoodValue(v)
    ensures Printable(v)
  {
  }

  lemma NotTail(t: string)
    requires |t| > 0 && !IsSpace(t[0]) && t[0] != '#'
    ensures !IsTail(t)
  {
    RunLengthIs(Space, t, 0, 0);
  }

  /** fmt.Sprintf("%s = %s%s", key, value, extra) */
  function TunableLine(key: string, value: string, extra: string): string {
    key + " = " + value + extra
  }

  lemma ShortestValue(v: string, extra: string)
    requires Printable(v) && IsTail(extra)
    ensures PlainSplit(v + extra, v, extra)
  {
    hide IsTail;
    var rest := v + extra;
    forall n | 1 <= n < |v| ensures !IsTail(rest[n..]) {
      assert rest[n..][0] == v[n];
      NotTail(rest[n..]);
    }
  }

  /** Printing, commented or not, then parsing gives back exactly the key, the value, the tail and whether there is a mark. */
  lemma LeadRoundTrip(lead: Lead, key: string, v: string, extra: string)
    requires lead.Valid() && KeyLike(key) && Printable(v) && IsTail(extra)
    ensures ParseKey(lead.Text() + TunableLine(key, v, extra), key) == Some(ParseResult(0, lead.Commented?, key, v, extra))
  {
    ShortestValue(v, extra);
    hide IsTail;
    hide PlainSplit;
    hide KeyLike;
    hide Printable;
    var s := lead.Text() + TunableLine(key, v, extra);
    SpacedText(lead.Text(), key, v, extra);
    PlainComplete(s, lead, key, " ", " ", v, extra);
  }

  lemma SpacedText(lead: string, key: string, v: string, extra: string)
    ensures lead + TunableLine(key, v, extra) == lead + key + " " + "=" + " " + (v + extra)
  {
    assert " = " == " " + "=" + " ";
  }

  /** Printing then parsing gives back exactly the key, the value and the tail, uncommented. */
  lemma TunableRoundTrip(key: string, v: string, extra: string)
    requires KeyLike(key) && Printable(v) && IsTail(extra)
    ensures ParseKey(TunableLine(key, v, extra), key) == Some(ParseResult(0, false, key, v, extra))
  {
    hide IsTail;
    hide Printable;
    hide KeyLike;
    LeadRoundTrip(Bare, key, v, extra);
    assert "" + TunableLine(key, v, extra) == TunableLine(key, v, extra);
    hide TunableLine;
  }

  /** fmt.Sprintf("%s = '%s'", param, value) */
  function ParamLine(param: string, value: string): string {
    param + " = '" + value + "'"
  }

  lemma ParamRoundTrip(param: string, v: string)
    requires KeyLike(param) && |v| > 0 && OneLine(v) && '\'' !in v
    ensures ParseParam(ParamLine(param, v), param) == Some(ParseResult(0, false, param, v, ""))
  {
    var rest := "'" + v + "'" + "";
    QuotedWhole(v);
    hide QuotedSplit;
    hide KeyLike;
    ParamSplits(param, v);
    hide ParamLine;
    hide Splits;
    QuotedComplete(ParamLine(param, v), Bare, param, " ", " ", rest, v, "");
  }

  lemma ParamSplits(param: string, v: string)
    ensures Splits(ParamLine(param, v), Bare, param, " ", " ", "'" + v + "'" + "")
  {
    assert " = '" == " " + "=" + " " + "'";
    assert ParamLine(param, v) == "" + param + " " + "=" + " " + ("'" + v + "'" + "");
  }

  lemma QuotedWhole(v: string)
    requires |v| > 0 && OneLine(v) && '\'' !in v
    ensures QuotedSplit("'" + v + "'" + "", v, "")
  {
    var rest := "'" + v + "'" + "";
    hide TailAt;
    EmptyTail();
    forall n | 2 <= n <= |v| ensures rest[n] != '\'' {
      assert rest[n] == v[n - 1];
    }
  }

  lemma EmptyTail()
    ensures IsTail("")
  {
  }

  /** What a parsed line looks like from its end: the value and, after it, the tail. */
  lemma ParsedShape(s: string, key: string)
    requires KeyLike(key) && ParseKey(s, key).Some?
    ensures var r := ParseKey(s, key).value;
            r.idx == 0 && r.key == key && |r.value| > 0 && NoSpace(r.value) && IsTail(r.extra) &&
            |r.extra| <= |s| && s[|s| - |r.extra|..] == r.extra
  {
    hide TailAt;
    hide RunLength;
    hide FirstTail;
    hide KeyStart;
    hide ValueStart;
    hide ParseWithRegex;
    ParsePlain(s, key);
    var f := ValueStart(s, key).value;
    var e := FirstTail(s, f + 1, f + RunLength(NonSpace, s, f)).value;
    PlainEndsSplit(s, f, e);
  }

  /** The white space of the patterns: tab, line feed, form feed, carriage return and space, and not the vertical tab. */
  lemma WhiteSpaceIs(c: char)
    ensures IsSpace(c) <==> c in {'\t', '\n', '\U{000C}', '\r', ' '}
    ensures Has(Space, c) == IsSpace(c) && Has(NonSpace, c) == !IsSpace(c)
    ensures (Has(Hash, c) <==> c == '#') && (Has(Dot, c) <==> c != '\n')
  {
  }
}
