/** The seven regular expressions of the extractors, as deterministic
    scanners. Each pattern has one of four shapes, and none of them needs
    backtracking. A repeat is followed by a piece that cannot start with a
    character of its class (`\d+` before "AM", `\s*` before `\d+`), so a
    shorter run fails at that piece; or it is followed by `(.*)`, which
    always succeeds; or it ends the pattern. In each case Python's engine
    keeps its first, greedy attempt. `IsHit` states the shape of a match
    declaratively, and `MatchAtIsHit` proves that the scanner finds exactly
    that match; `DateFitGreedy` proves the first case for the date steps. */
module Patterns {
  import opened Chars

  /** The four shapes: `key\s*(.*)`, `key\s*\$\s*(\d+)`, a sequence of
      steps `(cls{min,}lit ...)` captured whole, and
      `\$(\d+)keyword(optional)?@\w+` (an empty optional stands for no
      optional group). */
  datatype Pattern =
    | LabelLine(key: string)
    | LabelAmount(key: string)
    | Sequence(steps: seq<Step>)
    | Tagged(keyword: string, optional: string)

  const NameLabel := "Summary of Tips and VIPs for"
  const CreatorLabel := "Creator :"
  const GrossLabel := "TOTAL GROSS SALE:"
  const NetLabel := "TOTAL NET SALE:"

  const NamePattern := LabelLine(NameLabel)
  const CreatorPattern := LabelLine(CreatorLabel)
  const DatePattern := Sequence(DateSteps)
  const TipPattern := Tagged(" TIP from ", "")
  const PpvPattern := Tagged(" PPV PAID ", "from ")
  const GrossPattern := LabelAmount(GrossLabel)
  const NetPattern := LabelAmount(NetLabel)

  /** A match: the capturing group spans [gs, ge), the match ends at end, and
      marks records where the pattern's inner pieces end. */
  datatype Hit = Hit(gs: nat, ge: nat, end: nat, marks: seq<nat>)

  /** No character the literal's first character matches (ignoring case)
      belongs to cls, so a run of cls cannot swallow the literal's start. */
  predicate StopsRun(lit: string, cls: CharClass) {
    lit != [] && forall c :: Fold(c) == Fold(lit[0]) ==> !InClass(c, cls)
  }

  /** The conditions under which a shape needs no backtracking and cannot
      match the empty string; all seven patterns meet them. */
  predicate WellFormed(p: Pattern) {
    match p
    case LabelLine(l) => l != []
    case LabelAmount(l) => l != []
    case Sequence(st) => st != [] && st[|st| - 1].lit != []
    case Tagged(kw, o) => StopsRun(kw, Digit) && (o == [] || o[0] != '@')
  }

  /** A match of p starting at i, stated as the shape of the text it covers.
      Trailing repeats, and `\s*` before `(.*)`, are maximal: the engine
      is greedy and a match attempt ends at its first success. */
  predicate IsHit(p: Pattern, s: string, i: nat, h: Hit) {
    match p
    case LabelLine(l) =>
      LitAt(s, i, l) && i + |l| <= h.gs <= h.ge == h.end <= |s| && h.marks == [] &&
      AllIn(s, i + |l|, h.gs, Space) && RunStops(s, h.gs, Space) &&
      AllIn(s, h.gs, h.ge, Line) && RunStops(s, h.ge, Line)
    case LabelAmount(l) =>
      LitAt(s, i, l) && |h.marks| == 1 &&
      i + |l| <= h.marks[0] < h.gs < h.ge == h.end <= |s| &&
      AllIn(s, i + |l|, h.marks[0], Space) && s[h.marks[0]] == '$' &&
      AllIn(s, h.marks[0] + 1, h.gs, Space) &&
      AllIn(s, h.gs, h.ge, Digit) && RunStops(s, h.ge, Digit)
    case Sequence(st) =>
      |h.marks| == |st| && h.gs == i && h.ge == h.end == SequenceEnd(i, st, h.marks) &&
      StepsFit(s, i, st, 0, h.marks)
    case Tagged(kw, o) =>
      LitAt(s, i, "$") && h.gs == i + 1 < h.ge <= |s| && AllIn(s, i + 1, h.ge, Digit) &&
      LitAt(s, h.ge, kw) && |h.marks| == 1 &&
      (h.marks[0] == h.ge + |kw| || (h.marks[0] == h.ge + |kw| + |o| && LitAt(s, h.ge + |kw|, o))) &&
      LitAt(s, h.marks[0], "@") && h.marks[0] + 1 < h.end <= |s| &&
      AllIn(s, h.marks[0] + 1, h.end, Word) && RunStops(s, h.end, Word)
  }

  /** One piece of a sequential pattern: a greedy run of at least min
      characters of cls, then the literal lit. */
  datatype Step = Step(cls: CharClass, min: nat, lit: string)

  /** `\w+ \d+, \d+:\s*\d+AM-\d+AM PST` as steps; `\s*` is the step with
      an empty literal. */
  const DateSteps := [Step(Word, 1, " "), Step(Digit, 1, ", "), Step(Digit, 1, ":"),
                      Step(Space, 0, ""), Step(Digit, 1, "AM-"), Step(Digit, 1, "AM PST")]

  /** Where a sequence match from i ends, its literals starting at m. */
  function SequenceEnd(i: nat, steps: seq<Step>, m: seq<nat>): nat
    requires |m| == |steps|
  {
    if steps == [] then i else m[|m| - 1] + |steps[|steps| - 1].lit|
  }

  /** From i on, s has steps k.. of a sequential pattern, m[t] being where
      the literal of step k + t starts; every run is as long as it can be. */
  predicate StepsFit(s: string, i: nat, steps: seq<Step>, k: nat, m: seq<nat>)
    requires k <= |steps|
    decreases |steps| - k
  {
    if k == |steps| then m == []
    else
      var st := steps[k];
      |m| > 0 && i + st.min <= m[0] <= |s| &&
      AllIn(s, i, m[0], st.cls) && RunStops(s, m[0], st.cls) && LitAt(s, m[0], st.lit) &&
      StepsFit(s, m[0] + |st.lit|, steps, k + 1, m[1..])
  }

  /** One match attempt of p at position i, as the regex engine makes it. */
  function MatchAt(p: Pattern, s: string, i: nat): (r: Option<Hit>)
    requires i <= |s|
    ensures r.Some? ==> i <= r.value.gs <= r.value.ge <= r.value.end <= |s|
    ensures r.Some? && WellFormed(p) ==> i < r.value.end
  {
    match p
    case LabelLine(l) => LabelLineAt(l, s, i)
    case LabelAmount(l) => LabelAmountAt(l, s, i)
    case Sequence(st) => SequenceAt(st, s, i)
    case Tagged(kw, o) => TaggedAt(kw, o, s, i)
  }

  /** `cls{min,}lit` at i, the run taken greedily: where the literal starts. */
  function RunThen(s: string, i: nat, cls: CharClass, min: nat, lit: string): (r: Option<nat>)
    requires i <= |s|
    ensures r.Some? ==> i + min <= r.value && r.value + |lit| <= |s|
    decreases |s| - i
  {
    if i < |s| && InClass(s[i], cls) then RunThen(s, i + 1, cls, if min > 0 then min - 1 else 0, lit)
    else if min == 0 && LitAt(s, i, lit) then Some(i)
    else None
  }

  /** `key\s*(.*)` at i: the group is the rest of the line after the
      whitespace that follows the key. */
  function LabelLineAt(l: string, s: string, i: nat): (r: Option<Hit>)
    requires i <= |s|
    ensures r.Some? <==> LitAt(s, i, l)
    ensures r.Some? ==> i + |l| <= r.value.gs <= r.value.ge == r.value.end <= |s|
  {
    if !LitAt(s, i, l) then None
    else
      var gs := SpanEnd(s, i + |l|, Space);
      var ge := SpanEnd(s, gs, Line);
      Some(Hit(gs, ge, ge, []))
  }

  /** `key\s*\$\s*(\d+)` at i: the group is the run of digits; the one
      mark is where the dollar sign is. */
  function LabelAmountAt(l: string, s: string, i: nat): (r: Option<Hit>)
    requires i <= |s|
    ensures r.Some? ==> LitAt(s, i, l) && |r.value.marks| == 1
    ensures r.Some? ==> i + |l| <= r.value.marks[0] < r.value.gs < r.value.ge == r.value.end <= |s|
    ensures r.Some? ==> s[r.value.marks[0]] == '$' && AllIn(s, r.value.gs, r.value.ge, Digit)
  {
    if !LitAt(s, i, l) then None
    else
      var d := RunThen(s, i + |l|, Space, 0, "$");
      if d.None? then None
      else
        RunThenMax(s, i + |l|, Space, 0, "$", d.value);
        LitCharIs(s, d.value, "$", 0);
        var gs := SpanEnd(s, d.value + 1, Space);
        var ge := SpanEnd(s, gs, Digit);
        if ge == gs then None else Some(Hit(gs, ge, ge, [d.value]))
  }

  /** Steps k.. of a sequential pattern run from i, each run taken
      greedily: where each step's literal starts. */
  function RunSteps(s: string, i: nat, steps: seq<Step>, k: nat): (r: Option<seq<nat>>)
    requires i <= |s| && k <= |steps|
    ensures r.Some? ==> |r.value| == |steps| - k
    ensures r.Some? && k < |steps| ==>
      i <= r.value[|r.value| - 1] && r.value[|r.value| - 1] + |steps[|steps| - 1].lit| <= |s|
    decreases |steps| - k
  {
    if k == |steps| then Some([])
    else
      var j := RunThen(s, i, steps[k].cls, steps[k].min, steps[k].lit);
      if j.None? then None
      else
        var rest := RunSteps(s, j.value + |steps[k].lit|, steps, k + 1);
        if rest.None? then None else Some([j.value] + rest.value)
  }

  /** A sequence of steps at i, the whole match being the group; the marks
      are where the steps' literals start. */
  function SequenceAt(steps: seq<Step>, s: string, i: nat): (r: Option<Hit>)
    requires i <= |s|
    ensures r.Some? ==> r.value.gs == i <= r.value.ge == r.value.end <= |s|
    ensures r.Some? ==> |r.value.marks| == |steps|
  {
    var m := RunSteps(s, i, steps, 0);
    if m.None? then None
    else
      var e := SequenceEnd(i, steps, m.value);
      Some(Hit(i, e, e, m.value))
  }

  /** `\$(\d+)keyword(optional)?@\w+` at i: the group is the amount; the
      one mark is where the '@' is. */
  function TaggedAt(kw: string, o: string, s: string, i: nat): (r: Option<Hit>)
    requires i <= |s|
    ensures r.Some? ==> LitAt(s, i, "$") && |r.value.marks| == 1
    ensures r.Some? ==> r.value.gs == i + 1 < r.value.ge < r.value.marks[0] + 1 < r.value.end <= |s|
    ensures r.Some? ==> AllIn(s, r.value.gs, r.value.ge, Digit) && s[r.value.marks[0]] == '@'
    ensures r.Some? ==> AllIn(s, r.value.marks[0] + 1, r.value.end, Word)
  {
    if !LitAt(s, i, "$") then None
    else
      var ge := RunThen(s, i + 1, Digit, 1, kw);
      if ge.None? then None
      else
        RunThenMax(s, i + 1, Digit, 1, kw, ge.value);
        var q := ge.value + |kw|;
        // `(optional)?` is greedy; skipping it after taking it cannot help,
        // since the optional text does not start with '@'
        var r := if LitAt(s, q, o) then q + |o| else q;
        if !LitAt(s, r, "@") then None
        else
          LitCharIs(s, r, "@", 0);
          var end := SpanEnd(s, r + 1, Word);
          if end == r + 1 then None else Some(Hit(i + 1, ge.value, end, [r]))
  }

  /** A literal character that is not a letter matches only itself. */
  lemma LitCharIs(s: string, i: nat, lit: string, k: nat)
    requires LitAt(s, i, lit) && k < |lit| && !('A' <= lit[k] <= 'Z') && !('a' <= lit[k] <= 'z')
    ensures s[i + k] == lit[k]
  {
    assert Fold(s[i + k]) == Fold(lit[k]);
  }

  /** RunThen finds the literal exactly where a run of at least min
      characters of cls ends and the literal follows. */
  lemma RunThenIs(s: string, i: nat, cls: CharClass, min: nat, lit: string, j: nat)
    requires i <= |s| && StopsRun(lit, cls)
    ensures RunThen(s, i, cls, min, lit) == Some(j) <==>
      i + min <= j <= |s| && AllIn(s, i, j, cls) && LitAt(s, j, lit)
  {
    RunThenMax(s, i, cls, min, lit, j);
    if j < |s| && LitAt(s, j, lit) {
      assert Fold(s[j + 0]) == Fold(lit[0]);
    }
  }

  /** RunThen finds the literal exactly where a maximal run of at least min
      characters of cls ends and the literal follows. */
  lemma {:induction false} RunThenMax(s: string, i: nat, cls: CharClass, min: nat, lit: string, j: nat)
    requires i <= |s|
    ensures RunThen(s, i, cls, min, lit) == Some(j) <==>
      i + min <= j <= |s| && AllIn(s, i, j, cls) && RunStops(s, j, cls) && LitAt(s, j, lit)
    decreases |s| - i
  {
    if i < |s| && InClass(s[i], cls) {
      RunThenMax(s, i + 1, cls, if min > 0 then min - 1 else 0, lit, j);
    }
  }

  /** The scanner finds a match at i exactly when the text there has the
      pattern's shape, and the match it reports is that one. */
  lemma MatchAtIsHit(p: Pattern, s: string, i: nat, h: Hit)
    requires WellFormed(p) && i <= |s|
    ensures MatchAt(p, s, i) == Some(h) <==> IsHit(p, s, i, h)
  {
    match p
    case LabelLine(l) => LabelLineHit(l, s, i, h);
    case LabelAmount(l) => LabelAmountHit(l, s, i, h);
    case Sequence(st) => SequenceHit(st, s, i, h);
    case Tagged(kw, o) => TaggedHit(kw, o, s, i, h);
  }

  /** The label-line scanner is exact for its shape. */
  lemma LabelLineHit(l: string, s: string, i: nat, h: Hit)
    requires i <= |s|
    ensures LabelLineAt(l, s, i) == Some(h) <==> IsHit(LabelLine(l), s, i, h)
  {
    if IsHit(LabelLine(l), s, i, h) {
      SpanEndUnique(s, i + |l|, h.gs, Space);
      SpanEndUnique(s, h.gs, h.ge, Line);
    }
  }

  /** The label-amount scanner is exact for its shape. */
  lemma LabelAmountHit(l: string, s: string, i: nat, h: Hit)
    requires i <= |s|
    ensures LabelAmountAt(l, s, i) == Some(h) <==> IsHit(LabelAmount(l), s, i, h)
  {
    if LabelAmountAt(l, s, i) == Some(h) {
      LabelAmountSound(l, s, i);
    }
    if IsHit(LabelAmount(l), s, i, h) {
      LabelAmountComplete(l, s, i, h);
    }
  }

  /** What the label-amount scanner reports has the shape. */
  lemma LabelAmountSound(l: string, s: string, i: nat)
    requires i <= |s| && LabelAmountAt(l, s, i).Some?
    ensures IsHit(LabelAmount(l), s, i, LabelAmountAt(l, s, i).value)
  {
    var d := RunThen(s, i + |l|, Space, 0, "$").value;
    RunThenMax(s, i + |l|, Space, 0, "$", d);
    LitCharIs(s, d, "$", 0);
  }

  /** Text of the label-amount shape is what the scanner reports. */
  lemma LabelAmountComplete(l: string, s: string, i: nat, h: Hit)
    requires i <= |s| && IsHit(LabelAmount(l), s, i, h)
    ensures LabelAmountAt(l, s, i) == Some(h)
  {
    var m := h.marks[0];
    assert LitAt(s, m, "$");
    RunThenIs(s, i + |l|, Space, 0, "$", m);
    assert RunStops(s, h.gs, Space) by {
      assert InClass(s[h.gs], Digit);
    }
    SpanEndUnique(s, m + 1, h.gs, Space);
    SpanEndUnique(s, h.gs, h.ge, Digit);
    assert h == Hit(h.gs, h.ge, h.ge, [m]);
  }

  /** The sequence scanner is exact for its shape. */
  lemma SequenceHit(steps: seq<Step>, s: string, i: nat, h: Hit)
    requires i <= |s|
    ensures SequenceAt(steps, s, i) == Some(h) <==> IsHit(Sequence(steps), s, i, h)
  {
    if SequenceAt(steps, s, i) == Some(h) {
      RunStepsSound(s, i, steps, 0);
    }
    if IsHit(Sequence(steps), s, i, h) {
      RunStepsComplete(s, i, steps, 0, h.marks);
    }
  }

  /** The step scanner reports m exactly when the text has the steps'
      shape with the literals at m. */
  lemma RunStepsFit(s: string, i: nat, steps: seq<Step>, k: nat, m: seq<nat>)
    requires i <= |s| && k <= |steps|
    ensures RunSteps(s, i, steps, k) == Some(m) <==> StepsFit(s, i, steps, k, m)
  {
    if RunSteps(s, i, steps, k) == Some(m) {
      RunStepsSound(s, i, steps, k);
    }
    if StepsFit(s, i, steps, k, m) {
      RunStepsComplete(s, i, steps, k, m);
    }
  }

  /** What the step scanner reports fits the steps. */
  lemma {:induction false} RunStepsSound(s: string, i: nat, steps: seq<Step>, k: nat)
    requires i <= |s| && k <= |steps| && RunSteps(s, i, steps, k).Some?
    ensures StepsFit(s, i, steps, k, RunSteps(s, i, steps, k).value)
    decreases |steps| - k
  {
    if k < |steps| {
      var st := steps[k];
      var j := RunThen(s, i, st.cls, st.min, st.lit).value;
      RunThenMax(s, i, st.cls, st.min, st.lit, j);
      RunStepsSound(s, j + |st.lit|, steps, k + 1);
      var m := RunSteps(s, i, steps, k).value;
      assert m == [j] + RunSteps(s, j + |st.lit|, steps, k + 1).value;
      assert m[1..] == RunSteps(s, j + |st.lit|, steps, k + 1).value;
    }
  }

  /** A fit of the steps is what the step scanner reports. */
  lemma {:induction false} RunStepsComplete(s: string, i: nat, steps: seq<Step>, k: nat, m: seq<nat>)
    requires i <= |s| && k <= |steps| && StepsFit(s, i, steps, k, m)
    ensures RunSteps(s, i, steps, k) == Some(m)
    decreases |steps| - k
  {
    if k < |steps| {
      var st := steps[k];
      RunThenMax(s, i, st.cls, st.min, st.lit, m[0]);
      RunStepsComplete(s, m[0] + |st.lit|, steps, k + 1, m[1..]);
      assert m == [m[0]] + m[1..];
    }
  }

  /** The last step of a nonempty sequence. */
  function Last(steps: seq<Step>): Step
    requires steps != []
  {
    steps[|steps| - 1]
  }

  /** In a fit, the last step's literal starts at the last mark, which is
      not before the start. */
  lemma {:induction false} StepsFitLast(s: string, i: nat, steps: seq<Step>, k: nat, m: seq<nat>)
    requires k < |steps| && StepsFit(s, i, steps, k, m)
    ensures |m| == |steps| - k && i <= m[|m| - 1] && LitAt(s, m[|m| - 1], Last(steps).lit)
    decreases |steps| - k
  {
    if k + 1 < |steps| {
      StepsFitLast(s, m[0] + |steps[k].lit|, steps, k + 1, m[1..]);
    }
  }

  /** Steps k.. fit from i with their literals at m, each run of any length
      of at least its minimum: the regex's own reading, under which the
      engine may give back characters of a run. */
  predicate StepsFitAny(s: string, i: nat, steps: seq<Step>, k: nat, m: seq<nat>)
    requires k <= |steps|
    decreases |steps| - k
  {
    if k == |steps| then m == []
    else
      var st := steps[k];
      |m| > 0 && i + st.min <= m[0] <= |s| &&
      AllIn(s, i, m[0], st.cls) && LitAt(s, m[0], st.lit) &&
      StepsFitAny(s, m[0] + |st.lit|, steps, k + 1, m[1..])
  }

  /** The run of step k cannot stop early: its literal cannot start with a
      character of its class, or its literal is empty and the next step
      needs a character that the class does not contain. */
  predicate GivesNothingBack(steps: seq<Step>, k: nat)
    requires k < |steps|
  {
    StopsRun(steps[k].lit, steps[k].cls) ||
    (steps[k].lit == [] && k + 1 < |steps| && steps[k + 1].min > 0 &&
     forall c :: InClass(c, steps[k + 1].cls) ==> !InClass(c, steps[k].cls))
  }

  /** When no step can give characters back, every fit of the regex has
      maximal runs: backtracking finds nothing the greedy scan misses. */
  lemma {:induction false} FitAnyIsGreedy(s: string, i: nat, steps: seq<Step>, k: nat, m: seq<nat>)
    requires k <= |steps|
    requires forall t :: k <= t < |steps| ==> GivesNothingBack(steps, t)
    ensures StepsFitAny(s, i, steps, k, m) <==> StepsFit(s, i, steps, k, m)
    decreases |steps| - k
  {
    if k < |steps| && |m| > 0 {
      var st := steps[k];
      assert GivesNothingBack(steps, k);
      if m[0] <= |s| {
        FitAnyIsGreedy(s, m[0] + |st.lit|, steps, k + 1, m[1..]);
      }
      if StepsFitAny(s, i, steps, k, m) && m[0] < |s| {
        if StopsRun(st.lit, st.cls) {
          assert Fold(s[m[0] + 0]) == Fold(st.lit[0]);
        } else {
          var next := m[1..];
          assert StepsFitAny(s, m[0], steps, k + 1, next);
          assert m[0] < next[0] && AllIn(s, m[0], next[0], steps[k + 1].cls);
          assert InClass(s[m[0]], steps[k + 1].cls);
        }
        assert RunStops(s, m[0], st.cls);
      }
    }
  }

  /** Every step of the date pattern gives nothing back. */
  lemma DateStepsGiveNothingBack()
    ensures forall t :: 0 <= t < |DateSteps| ==> GivesNothingBack(DateSteps, t)
  {
    forall c | Fold(c) == Fold(' ') ensures !IsWordChar(c) { }
    forall c | Fold(c) == Fold('a') ensures !IsDigit(c) { }
  }

  /** `\w+ \d+, \d+:\s*\d+AM-\d+AM PST`: a way of fitting the regex at i is
      exactly the greedy fit, so the first match the engine finds is the
      one the scanner finds. */
  lemma DateFitGreedy(s: string, i: nat, m: seq<nat>)
    ensures StepsFitAny(s, i, DateSteps, 0, m) <==> StepsFit(s, i, DateSteps, 0, m)
  {
    DateStepsGiveNothingBack();
    FitAnyIsGreedy(s, i, DateSteps, 0, m);
  }

  /** The tagged-amount scanner is exact for its shape. */
  lemma TaggedHit(kw: string, o: string, s: string, i: nat, h: Hit)
    requires i <= |s| && StopsRun(kw, Digit) && (o == [] || o[0] != '@')
    ensures TaggedAt(kw, o, s, i) == Some(h) <==> IsHit(Tagged(kw, o), s, i, h)
  {
    if TaggedAt(kw, o, s, i) == Some(h) {
      TaggedSound(kw, o, s, i);
    }
    if IsHit(Tagged(kw, o), s, i, h) {
      TaggedComplete(kw, o, s, i, h);
    }
  }

  /** What the tagged-amount scanner reports has the shape. */
  lemma TaggedSound(kw: string, o: string, s: string, i: nat)
    requires i <= |s| && TaggedAt(kw, o, s, i).Some?
    ensures IsHit(Tagged(kw, o), s, i, TaggedAt(kw, o, s, i).value)
  {
    RunThenMax(s, i + 1, Digit, 1, kw, RunThen(s, i + 1, Digit, 1, kw).value);
  }

  /** Text of the tagged-amount shape is what the scanner reports. */
  lemma TaggedComplete(kw: string, o: string, s: string, i: nat, h: Hit)
    requires i <= |s| && StopsRun(kw, Digit) && (o == [] || o[0] != '@')
    requires IsHit(Tagged(kw, o), s, i, h)
    ensures TaggedAt(kw, o, s, i) == Some(h)
  {
    RunThenIs(s, i + 1, Digit, 1, kw, h.ge);
    var r := h.marks[0];
    TaggedOptional(o, s, h.ge + |kw|, r);
    SpanEndUnique(s, r + 1, h.end, Word);
    assert h.marks == [r];
  }

  /** After the keyword, `(optional)?` followed by '@' ends where the match
      puts the '@'. */
  lemma TaggedOptional(o: string, s: string, q: nat, r: nat)
    requires o == [] || o[0] != '@'
    requires r == q || (r == q + |o| && LitAt(s, q, o))
    requires LitAt(s, r, "@")
    ensures (if LitAt(s, q, o) then q + |o| else q) == r
  {
    LitCharIs(s, r, "@", 0);
    if o != [] && LitAt(s, q, o) {
      assert Fold(s[q + 0]) == Fold(o[0]);
    }
  }
}
