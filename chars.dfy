/** Character classes, case-insensitive literals and whitespace stripping,
    as Python's `re` module (with `re.IGNORECASE`) and `str.strip()` see them. */
module Chars {

  datatype Option<+T> = None | Some(value: T)

  /** `\d`, restricted to ASCII digits. */
  predicate IsDigit(c: char) { '0' <= c <= '9' }

  /** `\w`, restricted to ASCII letters, digits and underscore. */
  predicate IsWordChar(c: char) {
    ('a' <= c <= 'z') || ('A' <= c <= 'Z') || IsDigit(c) || c == '_'
  }

  /** `\s` and what `str.strip()` removes: the characters for which Python's
      `str.isspace()` holds. */
  predicate IsSpace(c: char): (b: bool)
    ensures c == ' ' || c == '\t' || c == '\n' || c == '\r' || c == '\U{b}' || c == '\U{c}' ==> b
    ensures b ==> !IsWordChar(c)
  {
    c == ' ' || ('\t' <= c <= '\r') || ('\U{1c}' <= c <= '\U{1f}') ||
    c == '\U{85}' || c == '\U{a0}' || c == '\U{1680}' || ('\U{2000}' <= c <= '\U{200a}') ||
    c == '\U{2028}' || c == '\U{2029}' || c == '\U{202f}' || c == '\U{205f}' || c == '\U{3000}'
  }

  /** The repeatable atoms the extraction patterns use. `Line` is `.`:
      any character but a newline. */
  datatype CharClass = Digit | Word | Space | Line

  predicate InClass(c: char, cls: CharClass) {
    match cls
    case Digit => IsDigit(c)
    case Word => IsWordChar(c)
    case Space => IsSpace(c)
    case Line => c != '\n'
  }

  /** Every character of s[lo..hi] belongs to cls. */
  predicate AllIn(s: string, lo: nat, hi: nat, cls: CharClass)
    requires lo <= hi <= |s|
  {
    forall k :: lo <= k < hi ==> InClass(s[k], cls)
  }

  /** A run of cls that starts at lo and stops at hi cannot be extended. */
  predicate RunStops(s: string, hi: nat, cls: CharClass)
    requires hi <= |s|
  {
    hi == |s| || !InClass(s[hi], cls)
  }

  /** ASCII case folding, the comparison `re.IGNORECASE` makes on these patterns. */
  function Fold(c: char): (f: char)
    ensures ('A' <= c <= 'Z') ==> f != c && 'a' <= f <= 'z'
    ensures !('A' <= c <= 'Z') ==> f == c
  {
    if 'A' <= c <= 'Z' then ((c as int) + 32) as char else c
  }

  /** Each upper-case letter folds to its own lower-case letter. */
  lemma FoldLower(c: char)
    requires 'A' <= c <= 'Z'
    ensures Fold(c) == "abcdefghijklmnopqrstuvwxyz"[c as int - 'A' as int]
  {
  }

  /** Case folding neither makes nor unmakes whitespace. */
  lemma FoldSpace(c: char)
    ensures IsSpace(Fold(c)) <==> IsSpace(c)
  {
  }

  /** The literal lit occurs at position i of s, ignoring letter case. */
  predicate LitAt(s: string, i: nat, lit: string) {
    i + |lit| <= |s| && forall k :: 0 <= k < |lit| ==> Fold(s[i + k]) == Fold(lit[k])
  }

  /** s ends with lit, ignoring letter case. */
  predicate EndsWith(s: string, lit: string)
    decreases |lit|
  {
    |lit| <= |s| &&
    (lit == [] || (Fold(s[|s| - 1]) == Fold(lit[|lit| - 1]) && EndsWith(s[..|s| - 1], lit[..|lit| - 1])))
  }

  /** A slice of s that stops where an occurrence of lit stops ends with lit. */
  lemma {:induction false} LitAtEnd(s: string, i: nat, e: nat, lit: string)
    requires i + |lit| <= e <= |s| && LitAt(s, e - |lit|, lit)
    ensures EndsWith(s[i..e], lit)
    decreases |lit|
  {
    if lit != [] {
      var n := |lit| - 1;
      assert Fold(s[e - |lit| + n]) == Fold(lit[n]);
      assert LitAt(s, e - 1 - n, lit[..n]) by {
        forall k | 0 <= k < n ensures Fold(s[e - 1 - n + k]) == Fold(lit[..n][k]) {
          assert Fold(s[e - |lit| + k]) == Fold(lit[k]);
        }
      }
      LitAtEnd(s, i, e - 1, lit[..n]);
      assert s[i..e][..|s[i..e]| - 1] == s[i..e - 1];
    }
  }

  /** Whatever ends with a + b ends with b. */
  lemma {:induction false} EndsWithSuffix(s: string, a: string, b: string)
    requires EndsWith(s, a + b)
    ensures EndsWith(s, b)
    decreases |b|
  {
    if b != [] {
      assert (a + b)[..|a + b| - 1] == a + b[..|b| - 1];
      assert (a + b)[|a + b| - 1] == b[|b| - 1];
      EndsWithSuffix(s[..|s| - 1], a, b[..|b| - 1]);
    }
  }

  /** The literal lit occurs somewhere in s, ignoring letter case. */
  predicate ContainsCI(s: string, lit: string) {
    exists i :: 0 <= i <= |s| && LitAt(s, i, lit)
  }

  /** Greedy repetition `cls*` from position i: the end of the longest run of
      cls characters starting at i. */
  function SpanEnd(s: string, i: nat, cls: CharClass): (j: nat)
    requires i <= |s|
    ensures i <= j <= |s|
    ensures AllIn(s, i, j, cls)
    ensures RunStops(s, j, cls)
    decreases |s| - i
  {
    if i < |s| && InClass(s[i], cls) then SpanEnd(s, i + 1, cls) else i
  }

  /** A run that is all cls and cannot be extended is the one SpanEnd finds. */
  lemma SpanEndUnique(s: string, i: nat, j: nat, cls: CharClass)
    requires i <= j <= |s|
    requires AllIn(s, i, j, cls) && RunStops(s, j, cls)
    ensures SpanEnd(s, i, cls) == j
  {
  }

  /** s has no whitespace at either end. */
  predicate Trimmed(s: string) {
    s == [] || (!IsSpace(s[0]) && !IsSpace(s[|s| - 1]))
  }

  /** s is a nonempty run of digits. */
  predicate Digits(s: string) {
    |s| > 0 && forall k :: 0 <= k < |s| ==> IsDigit(s[k])
  }

  /** Position just after the leading whitespace of s. */
  function TrimStart(s: string): (a: nat)
    ensures a <= |s|
    ensures forall k :: 0 <= k < a ==> IsSpace(s[k])
    ensures a == |s| || !IsSpace(s[a])
  {
    SpanEnd(s, 0, Space)
  }

  /** Position of the trailing whitespace of s[a..]. */
  function TrimEnd(s: string, a: nat): (b: nat)
    requires a <= |s|
    ensures a <= b <= |s|
    ensures forall k :: b <= k < |s| ==> IsSpace(s[k])
    ensures b == a || !IsSpace(s[b - 1])
    decreases |s|
  {
    if |s| == a || !IsSpace(s[|s| - 1]) then |s|
    else TrimEnd(s[..|s| - 1], a)
  }

  /** `str.strip()`: s without its leading and trailing whitespace. */
  function Strip(s: string): (r: string)
    ensures Trimmed(r)
    ensures TrimStart(s) + |r| <= |s| && r == s[TrimStart(s)..TrimStart(s) + |r|]
    ensures forall k :: TrimStart(s) + |r| <= k < |s| ==> IsSpace(s[k])
  {
    var a := TrimStart(s);
    s[a..TrimEnd(s, a)]
  }

  /** What strip removes is whitespace only, and a string without edge
      whitespace is left as it is. */
  lemma {:induction false} StripKeepsInner(s: string)
    requires Trimmed(s)
    ensures Strip(s) == s
  {
    assert TrimStart(s) == 0 by {
      if s != [] { SpanEndUnique(s, 0, 0, Space); }
    }
  }

  /** Stripping twice is stripping once. */
  lemma StripIdempotent(s: string)
    ensures Strip(Strip(s)) == Strip(s)
  {
    StripKeepsInner(Strip(s));
  }
}
