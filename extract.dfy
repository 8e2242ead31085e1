/** The seven field extractors of the shift-report bot. Each is one regex
    search (or findall) over the message text; a field that the text does
    not carry comes out as None. */
module Extract {
  import opened Chars
  import opened Patterns
  import opened Scanning

  /** The text of a match's capturing group. */
  function Group(s: string, h: Hit): string {
    if h.gs <= h.ge <= |s| then s[h.gs..h.ge] else ""
  }

  /** The capturing groups of a sequence of matches, in the same order. */
  function Groups(s: string, ms: seq<Found>): (gs: seq<string>)
    ensures |gs| == |ms|
  {
    seq(|ms|, j requires 0 <= j < |ms| => Group(s, ms[j].hit))
  }

  /** Total length of the parts. */
  function TotalLength(parts: seq<string>): nat
    decreases |parts|
  {
    if parts == [] then 0 else |parts[0]| + TotalLength(parts[1..])
  }

  /** `sep.join(parts)`: every part once, in order, with one separator
      between neighbours. */
  function Join(parts: seq<string>, sep: string): (r: string)
    ensures |parts| > 0 ==> |r| == TotalLength(parts) + (|parts| - 1) * |sep|
    ensures |parts| > 0 ==> r[..|parts[0]|] == parts[0]
    decreases |parts|
  {
    if |parts| == 0 then ""
    else if |parts| == 1 then parts[0]
    else parts[0] + sep + Join(parts[1..], sep)
  }

  /** The first position of c in s, or |s| when c does not occur. */
  function IndexOf(s: string, c: char): (k: nat)
    ensures k <= |s|
    ensures k < |s| ==> s[k] == c
    ensures forall j :: 0 <= j < k ==> s[j] != c
  {
    if s == [] || s[0] == c then 0 else 1 + IndexOf(s[1..], c)
  }

  /** Reads a joined list back: cuts s at each occurrence of the separator's
      first character and drops the separator. */
  function SplitOn(s: string, sep: string): seq<string>
    requires sep != []
    decreases |s|
  {
    var k := IndexOf(s, sep[0]);
    if k == |s| then [s]
    else [s[..k]] + SplitOn(s[if k + |sep| <= |s| then k + |sep| else |s|..], sep)
  }

  /** A list joined with a separator whose first character occurs in no
      element reads back as the same list. */
  lemma {:induction false} SplitJoin(parts: seq<string>, sep: string)
    requires sep != [] && |parts| > 0
    requires forall j :: 0 <= j < |parts| ==> sep[0] !in parts[j]
    ensures SplitOn(Join(parts, sep), sep) == parts
    decreases |parts|
  {
    var p0 := parts[0];
    if |parts| == 1 {
      assert IndexOf(p0, sep[0]) == |p0|;
    } else {
      var rest := Join(parts[1..], sep);
      var s := p0 + sep + rest;
      assert Join(parts, sep) == s;
      assert s[..|p0|] == p0;
      assert s[|p0|] == sep[0];
      assert forall k :: 0 <= k < |p0| ==> s[k] == p0[k];
      assert IndexOf(s, sep[0]) == |p0|;
      assert s[|p0| + |sep|..] == rest;
      SplitJoin(parts[1..], sep);
      assert parts == [p0] + parts[1..];
    }
  }

  /** Joining digit runs with ", " gives only digits, commas and spaces. */
  lemma {:induction false} JoinAmountsAlphabet(parts: seq<string>)
    requires forall j :: 0 <= j < |parts| ==> Digits(parts[j])
    ensures forall k :: 0 <= k < |Join(parts, ", ")| ==>
      IsDigit(Join(parts, ", ")[k]) || Join(parts, ", ")[k] in ", "
    decreases |parts|
  {
    if |parts| > 1 {
      JoinAmountsAlphabet(parts[1..]);
      var rest := Join(parts[1..], ", ");
      var s := parts[0] + ", " + rest;
      assert Join(parts, ", ") == s;
      forall k | 0 <= k < |s| ensures IsDigit(s[k]) || s[k] in ", " {
        if k >= |parts[0]| + 2 {
          assert s[k] == rest[k - |parts[0]| - 2];
        }
      }
    }
  }

  /** `re.search(p, s)` and `.group(1).strip()`, or None without a match. */
  function SearchGroup(p: Pattern, s: string): (r: Option<string>)
    requires WellFormed(p)
    ensures r.None? <==> NoHitIn(p, s, 0, |s| + 1)
    ensures r.Some? ==> Trimmed(r.value)
  {
    match Search(p, s, 0)
    case None => None
    case Some(m) => Some(Strip(Group(s, m.hit)))
  }

  /** `', '.join(re.findall(p, s))`, or None when findall finds nothing. */
  function JoinGroups(p: Pattern, s: string): (r: Option<string>)
    requires WellFormed(p)
    ensures r.None? <==> NoHitIn(p, s, 0, |s| + 1)
  {
    var ms := FindAll(p, s, 0);
    ScannedEmpty(p, s, 0, ms);
    var gs := Groups(s, ms);
    if gs == [] then None else Some(Join(gs, ", "))
  }

  /** An extractor reports the stripped group of the leftmost match: where
      the text has the pattern's shape at i and nowhere before. */
  lemma SearchGroupLeftmost(p: Pattern, s: string, i: nat, h: Hit)
    requires WellFormed(p) && i <= |s|
    requires IsHit(p, s, i, h) && NoHitIn(p, s, 0, i)
    ensures SearchGroup(p, s) == Some(Strip(Group(s, h)))
  {
    SearchFindsLeftmost(p, s, i, h);
  }

  /** The leftmost match of a search has the pattern's shape. */
  lemma SearchShape(p: Pattern, s: string)
    requires WellFormed(p) && Search(p, s, 0).Some?
    ensures IsHit(p, s, Search(p, s, 0).value.start, Search(p, s, 0).value.hit)
  {
    var m := Search(p, s, 0).value;
    MatchAtIsHit(p, s, m.start, m.hit);
  }

  /** A label-line search fails exactly when the label occurs nowhere. */
  lemma LabelLineAbsent(l: string, s: string)
    requires l != []
    ensures Search(LabelLine(l), s, 0).None? <==> !ContainsCI(s, l)
  {
    var p := LabelLine(l);
    var r := Search(p, s, 0);
    if r.None? {
      forall k | 0 <= k <= |s| ensures !LitAt(s, k, l) {
        assert MatchAt(p, s, k).None?;
      }
    } else {
      SearchShape(p, s);
      assert LitAt(s, r.value.start, l);
    }
  }

  /** The stripped group of a label-line match is one line with no
      whitespace at its ends. */
  lemma LabelLineGroup(l: string, s: string, i: nat, h: Hit)
    requires IsHit(LabelLine(l), s, i, h)
    ensures '\n' !in Strip(Group(s, h)) && Trimmed(Strip(Group(s, h)))
  {
    var g := Group(s, h);
    var v := Strip(g);
    assert forall k :: 0 <= k < |g| ==> g[k] != '\n';
    var a := TrimStart(g);
    forall k | 0 <= k < |v| ensures v[k] != '\n' {
      assert v[k] == g[a + k];
    }
  }

  /** `label\s*(.*)`: absent exactly when the label is, and otherwise one
      line of text with no whitespace at its ends. */
  lemma LabelLineFacts(l: string, s: string)
    requires l != []
    ensures SearchGroup(LabelLine(l), s).None? <==> !ContainsCI(s, l)
    ensures SearchGroup(LabelLine(l), s).Some? ==>
      '\n' !in SearchGroup(LabelLine(l), s).value && Trimmed(SearchGroup(LabelLine(l), s).value)
  {
    LabelLineAbsent(l, s);
    var r := Search(LabelLine(l), s, 0);
    if r.Some? {
      SearchShape(LabelLine(l), s);
      LabelLineGroup(l, s, r.value.start, r.value.hit);
    }
  }

  /** `\s*` crosses line ends: a label-line value is empty exactly when
      nothing but whitespace follows the leftmost label to the end of the
      text; otherwise it starts on the first non-blank line after the label. */
  lemma LabelLineEmpty(l: string, s: string, m: Found)
    requires l != [] && Search(LabelLine(l), s, 0) == Some(m)
    ensures m.start + |l| <= |s|
    ensures SearchGroup(LabelLine(l), s) == Some("") <==> AllIn(s, m.start + |l|, |s|, Space)
  {
    assert SearchGroup(LabelLine(l), s) == Some(Strip(Group(s, m.hit)));
    MatchAtIsHit(LabelLine(l), s, m.start, m.hit);
    LineGroupEmpty(l, s, m.start, m.hit);
  }

  /** The stripped group of a label-line match at i is empty exactly when
      only whitespace follows the label. */
  lemma LineGroupEmpty(l: string, s: string, i: nat, h: Hit)
    requires IsHit(LabelLine(l), s, i, h)
    ensures i + |l| <= |s|
    ensures Strip(Group(s, h)) == "" <==> AllIn(s, i + |l|, |s|, Space)
  {
    var g := Group(s, h);
    if h.gs < |s| {
      assert !IsSpace(s[h.gs]) && InClass(s[h.gs], Line);
      assert g != [] && g[0] == s[h.gs];
      assert TrimStart(g) == 0;
      assert Strip(g) != "";
    } else {
      assert g == [];
    }
  }

  /** The creator label with nothing after it on its line takes the next line. */
  lemma CreatorTakesNextLine()
    ensures ExtractCreator("Creator :\nX") == Some("X")
  {
    var s := "Creator :\nX";
    var h := Hit(10, 11, 11, []);
    assert LitAt(s, 0, CreatorLabel);
    assert IsHit(CreatorPattern, s, 0, h);
    assert Group(s, h) == "X";
    SearchGroupLeftmost(CreatorPattern, s, 0, h);
    StripKeepsInner("X");
  }

  /** The group of a label-amount match is a run of digits, after the label. */
  lemma LabelAmountGroup(l: string, s: string, i: nat, h: Hit)
    requires IsHit(LabelAmount(l), s, i, h)
    ensures LitAt(s, i, l) && Digits(Group(s, h)) && Strip(Group(s, h)) == Group(s, h)
  {
    StripKeepsInner(Group(s, h));
  }

  /** `label\s*\$\s*(\d+)`: a nonempty run of digits, and absent whenever
      the label is. */
  lemma LabelAmountFacts(l: string, s: string)
    requires l != []
    ensures SearchGroup(LabelAmount(l), s).None? <==> NoHitIn(LabelAmount(l), s, 0, |s| + 1)
    ensures !ContainsCI(s, l) ==> SearchGroup(LabelAmount(l), s).None?
    ensures SearchGroup(LabelAmount(l), s).Some? ==>
      Digits(SearchGroup(LabelAmount(l), s).value) &&
      SearchGroup(LabelAmount(l), s).value == Group(s, Search(LabelAmount(l), s, 0).value.hit)
  {
    var p := LabelAmount(l);
    var r := Search(p, s, 0);
    if r.Some? {
      SearchShape(p, s);
      LabelAmountGroup(l, s, r.value.start, r.value.hit);
    }
  }

  /** The group of a sequence match is the whole match, and ends with the
      last literal. When the first step is a nonempty run of letters or
      digits and the last literal does not end in whitespace, it has no edge
      whitespace. */
  lemma SequenceGroup(steps: seq<Step>, s: string, i: nat, h: Hit)
    requires IsHit(Sequence(steps), s, i, h) && steps != []
    requires steps[0].min > 0 && (steps[0].cls == Word || steps[0].cls == Digit)
    requires Last(steps).lit != [] && !IsSpace(Fold(Last(steps).lit[|Last(steps).lit| - 1]))
    ensures i <= h.end <= |s| && Group(s, h) == s[i..h.end]
    ensures Strip(Group(s, h)) == Group(s, h) && EndsWith(Group(s, h), Last(steps).lit)
  {
    var g := Group(s, h);
    var t := Last(steps).lit;
    var e := h.end;
    StepsFitLast(s, i, steps, 0, h.marks);
    assert g == s[i..e];
    LitAtEnd(s, i, e, t);
    assert InClass(g[0], steps[0].cls);
    assert Fold(s[e - |t| + (|t| - 1)]) == Fold(t[|t| - 1]);
    EdgesKept(g, steps[0].cls, t);
  }

  /** A text that starts with a letter or digit and ends with (a case
      variant of) a character that is not whitespace is left as it is by
      strip. */
  lemma EdgesKept(g: string, cls: CharClass, t: string)
    requires g != [] && (cls == Word || cls == Digit) && InClass(g[0], cls)
    requires t != [] && Fold(g[|g| - 1]) == Fold(t[|t| - 1]) && !IsSpace(Fold(t[|t| - 1]))
    ensures Strip(g) == g
  {
    FoldSpace(g[|g| - 1]);
    StripKeepsInner(g);
  }

  /** A sequence pattern under search: absent exactly when nothing
      matches; otherwise the whole first match, which ends with the last
      literal. */
  lemma SequenceFacts(steps: seq<Step>, s: string)
    requires steps != [] && steps[0].min > 0 && (steps[0].cls == Word || steps[0].cls == Digit)
    requires Last(steps).lit != [] && !IsSpace(Fold(Last(steps).lit[|Last(steps).lit| - 1]))
    ensures SearchGroup(Sequence(steps), s).None? <==> NoHitIn(Sequence(steps), s, 0, |s| + 1)
    ensures SearchGroup(Sequence(steps), s).Some? ==>
      var m := Search(Sequence(steps), s, 0).value;
      SearchGroup(Sequence(steps), s).value == s[m.start..m.hit.end] &&
      EndsWith(SearchGroup(Sequence(steps), s).value, Last(steps).lit)
  {
    var r := Search(Sequence(steps), s, 0);
    if r.Some? {
      SearchShape(Sequence(steps), s);
      SequenceGroup(steps, s, r.value.start, r.value.hit);
    }
  }

  /** The first and last steps of the date-shift pattern. */
  lemma DateStepsEnds()
    ensures DateSteps != [] && DateSteps[0] == Step(Word, 1, " ") && Last(DateSteps).lit == "AM PST"
  {
  }

  /** Whatever ends in "AM PST" ends in "PST". */
  lemma PstSuffix(v: string)
    requires EndsWith(v, "AM PST")
    ensures EndsWith(v, "PST")
  {
    assert "AM " + "PST" == "AM PST";
    EndsWithSuffix(v, "AM ", "PST");
  }

  /** The date-shift pattern: the value is exactly the matched text, which
      ends in "PST" (in any letter case). */
  lemma DateShiftFacts(s: string)
    ensures SearchGroup(DatePattern, s).None? <==> NoHitIn(DatePattern, s, 0, |s| + 1)
    ensures SearchGroup(DatePattern, s).Some? ==>
      var m := Search(DatePattern, s, 0).value;
      var v := SearchGroup(DatePattern, s).value;
      v == s[m.start..m.hit.end] && EndsWith(v, "PST")
  {
    DateStepsEnds();
    SequenceFacts(DateSteps, s);
    var g := SearchGroup(DatePattern, s);
    if g.Some? {
      PstSuffix(g.value);
    }
  }

  /** The group of a tagged match is a run of digits. */
  lemma TaggedGroup(kw: string, o: string, s: string, i: nat, h: Hit)
    requires IsHit(Tagged(kw, o), s, i, h)
    ensures Digits(Group(s, h)) && ',' !in Group(s, h)
  {
  }

  /** `\$(\d+)...@\w+` under findall: absent exactly when nothing matches;
      otherwise the digit runs of the matches, in document order, joined
      with ", ", which read back as exactly those runs. */
  lemma TaggedFacts(kw: string, o: string, s: string)
    requires WellFormed(Tagged(kw, o))
    ensures JoinGroups(Tagged(kw, o), s).None? <==> NoHitIn(Tagged(kw, o), s, 0, |s| + 1)
    ensures JoinGroups(Tagged(kw, o), s).Some? ==>
      var gs := Groups(s, FindAll(Tagged(kw, o), s, 0));
      var v := JoinGroups(Tagged(kw, o), s).value;
      v == Join(gs, ", ") && SplitOn(v, ", ") == gs &&
      (forall j :: 0 <= j < |gs| ==> Digits(gs[j])) &&
      (forall k :: 0 <= k < |v| ==> IsDigit(v[k]) || v[k] in ", ")
  {
    var p := Tagged(kw, o);
    var ms := FindAll(p, s, 0);
    var gs := Groups(s, ms);
    ScannedEmpty(p, s, 0, ms);
    forall j | 0 <= j < |gs| ensures Digits(gs[j]) && ',' !in gs[j] {
      ScannedMatch(p, s, 0, ms, j);
      MatchAtIsHit(p, s, ms[j].start, ms[j].hit);
      TaggedGroup(kw, o, s, ms[j].start, ms[j].hit);
    }
    if gs != [] {
      SplitJoin(gs, ", ");
      JoinAmountsAlphabet(gs);
    }
  }

  /** `extract_name`: the rest of the line after "Summary of Tips and VIPs
      for" and any whitespace, stripped. */
  function ExtractName(text: string): (r: Option<string>)
    ensures r.None? <==> !ContainsCI(text, NameLabel)
    ensures r.Some? ==> '\n' !in r.value && Trimmed(r.value)
  {
    LabelLineFacts(NameLabel, text);
    SearchGroup(NamePattern, text)
  }

  /** `extract_date_shift`: the first `<word> <day>, <year>:<hour>AM-<hour>AM PST`. */
  function ExtractDateShift(text: string): (r: Option<string>)
    ensures r.None? <==> NoHitIn(DatePattern, text, 0, |text| + 1)
    ensures r.Some? ==> EndsWith(r.value, "PST")
    ensures r.Some? ==> r.value == text[Search(DatePattern, text, 0).value.start..Search(DatePattern, text, 0).value.hit.end]
  {
    DateShiftFacts(text);
    SearchGroup(DatePattern, text)
  }

  /** `extract_creator`: the rest of the line after "Creator :" and any
      whitespace, stripped. */
  function ExtractCreator(text: string): (r: Option<string>)
    ensures r.None? <==> !ContainsCI(text, CreatorLabel)
    ensures r.Some? ==> '\n' !in r.value && Trimmed(r.value)
  {
    LabelLineFacts(CreatorLabel, text);
    SearchGroup(CreatorPattern, text)
  }

  /** `extract_vip_tips`: the amounts of every `$<digits> TIP from @<word>`. */
  function ExtractVipTips(text: string): (r: Option<string>)
    ensures r.None? <==> NoHitIn(TipPattern, text, 0, |text| + 1)
    ensures r.Some? ==> r.value == Join(Groups(text, FindAll(TipPattern, text, 0)), ", ")
    ensures r.Some? ==> SplitOn(r.value, ", ") == Groups(text, FindAll(TipPattern, text, 0))
    ensures r.Some? ==> forall j :: 0 <= j < |SplitOn(r.value, ", ")| ==> Digits(SplitOn(r.value, ", ")[j])
    ensures r.Some? ==> forall k :: 0 <= k < |r.value| ==> IsDigit(r.value[k]) || r.value[k] in ", "
  {
    TaggedFacts(TipPattern.keyword, TipPattern.optional, text);
    JoinGroups(TipPattern, text)
  }

  /** `extract_ppvs`: the amounts of every `$<digits> PPV PAID [from ]@<word>`;
      the optional "from " never reaches the result. */
  function ExtractPpvs(text: string): (r: Option<string>)
    ensures r.None? <==> NoHitIn(PpvPattern, text, 0, |text| + 1)
    ensures r.Some? ==> r.value == Join(Groups(text, FindAll(PpvPattern, text, 0)), ", ")
    ensures r.Some? ==> SplitOn(r.value, ", ") == Groups(text, FindAll(PpvPattern, text, 0))
    ensures r.Some? ==> forall j :: 0 <= j < |SplitOn(r.value, ", ")| ==> Digits(SplitOn(r.value, ", ")[j])
    ensures r.Some? ==> forall k :: 0 <= k < |r.value| ==> IsDigit(r.value[k]) || r.value[k] in ", "
  {
    TaggedFacts(PpvPattern.keyword, PpvPattern.optional, text);
    JoinGroups(PpvPattern, text)
  }

  /** `extract_total_gross_sale`: the digits after "TOTAL GROSS SALE:" and a
      dollar sign, from the first such match. */
  function ExtractTotalGrossSale(text: string): (r: Option<string>)
    ensures r.None? <==> NoHitIn(GrossPattern, text, 0, |text| + 1)
    ensures !ContainsCI(text, GrossLabel) ==> r.None?
    ensures r.Some? ==> Digits(r.value) && r.value == Group(text, Search(GrossPattern, text, 0).value.hit)
  {
    LabelAmountFacts(GrossLabel, text);
    SearchGroup(GrossPattern, text)
  }

  /** `extract_total_net_sale`: the digits after "TOTAL NET SALE:" and a
      dollar sign, from the first such match. */
  function ExtractTotalNetSale(text: string): (r: Option<string>)
    ensures r.None? <==> NoHitIn(NetPattern, text, 0, |text| + 1)
    ensures !ContainsCI(text, NetLabel) ==> r.None?
    ensures r.Some? ==> Digits(r.value) && r.value == Group(text, Search(NetPattern, text, 0).value.hit)
  {
    LabelAmountFacts(NetLabel, text);
    SearchGroup(NetPattern, text)
  }
}
