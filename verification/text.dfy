/** Character classes and string scanning shared by the log readers.
    The character classes are those of Python's `re` module for `str`
    patterns, restricted to ASCII for digits and word characters. */
module Text {
  import opened Wrappers

  predicate IsDigit(c: char) { '0' <= c <= '9' }

  predicate IsUpper(c: char) { 'A' <= c <= 'Z' }

  predicate IsLetter(c: char) { IsUpper(c) || 'a' <= c <= 'z' }

  predicate IsAlnum(c: char) { IsLetter(c) || IsDigit(c) }

  /** `\w` */
  predicate IsWordChar(c: char) { IsLetter(c) || IsDigit(c) || c == '_' }

  /** `\s`, and the characters `str.rstrip()` removes: Python's `str.isspace`. */
  predicate IsSpace(c: char) {
    || c == ' '
    || '\t' <= c <= '\r'
    || '\U{1c}' <= c <= '\U{1f}'
    || c == '\U{85}' || c == '\U{a0}' || c == '\U{1680}'
    || '\U{2000}' <= c <= '\U{200a}'
    || c == '\U{2028}' || c == '\U{2029}' || c == '\U{202f}' || c == '\U{205f}' || c == '\U{3000}'
  }

  predicate NotBracketClose(c: char) { c != ']' }

  predicate NotParenClose(c: char) { c != ')' }

  predicate NotLineBreak(c: char) { c != '\n' }

  /** `\S` */
  predicate NotSpace(c: char) { !IsSpace(c) }

  predicate IsBlank(c: char) { c == ' ' }

  /** `[\d.-]`: the characters of a numeral. */
  predicate IsNumeralChar(c: char) { IsDigit(c) || c == '.' || c == '-' }

  /** `[^?\t]` */
  predicate NotQueryOrTab(c: char) { c != '?' && c != '\t' }

  /** The character classes whose runs the log patterns scan. */
  datatype CharClass =
    | Digit | Upper | Alnum | Word | Space | NonSpace | Blank | Numeral
    | NotBracket | NotParen | NotNewline | NotQueryTab

  predicate InClass(c: char, k: CharClass) {
    match k
    case Digit => IsDigit(c)
    case Upper => IsUpper(c)
    case Alnum => IsAlnum(c)
    case Word => IsWordChar(c)
    case Space => IsSpace(c)
    case NonSpace => NotSpace(c)
    case Blank => IsBlank(c)
    case Numeral => IsNumeralChar(c)
    case NotBracket => NotBracketClose(c)
    case NotParen => NotParenClose(c)
    case NotNewline => NotLineBreak(c)
    case NotQueryTab => NotQueryOrTab(c)
  }

  predicate AllDigits(s: string) { forall i :: 0 <= i < |s| ==> IsDigit(s[i]) }

  /** The end of the longest run of characters satisfying `p` that starts
      at position `i`; `SkipWhileAll` says the run qualifies. */
  function SkipWhile(s: string, i: nat, p: CharClass): (j: nat)
    requires i <= |s|
    ensures i <= j <= |s|
    ensures j < |s| ==> !InClass(s[j], p)
    decreases |s| - i
  {
    if i == |s| || !InClass(s[i], p) then i else SkipWhile(s, i + 1, p)
  }

  /** Every character the scan passes over satisfies `p`. */
  lemma {:induction false} SkipWhileAll(s: string, i: nat, p: CharClass)
    requires i <= |s|
    ensures forall k :: i <= k < SkipWhile(s, i, p) ==> InClass(s[k], p)
    decreases |s| - i
  {
    if i < |s| && InClass(s[i], p) {
      SkipWhileAll(s, i + 1, p);
    }
  }

  /** The scan ends at `j` when every character before `j` qualifies and
      the one at `j` does not. */
  lemma {:induction false} SkipWhileIs(s: string, i: nat, p: CharClass, j: nat)
    requires i <= j <= |s|
    requires forall k :: i <= k < j ==> InClass(s[k], p)
    requires j < |s| ==> !InClass(s[j], p)
    ensures SkipWhile(s, i, p) == j
    decreases j - i
  {
    if i < j {
      SkipWhileIs(s, i + 1, p, j);
    }
  }

  /** The scan gets at least as far as a run of qualifying characters. */
  lemma {:induction false} SkipWhilePasses(s: string, i: nat, p: CharClass, j: nat)
    requires i <= j <= |s|
    requires forall k :: i <= k < j ==> InClass(s[k], p)
    ensures SkipWhile(s, i, p) >= j
    decreases j - i
  {
    if i < j {
      SkipWhilePasses(s, i + 1, p, j);
    }
  }

  /** A scan that stops inside `s` stops at the same place once more text
      follows. */
  lemma {:induction false} SkipWhileExtend(s: string, t: string, i: nat, p: CharClass)
    requires i <= |s|
    requires SkipWhile(s, i, p) < |s|
    ensures SkipWhile(s + t, i, p) == SkipWhile(s, i, p)
    decreases |s| - i
  {
    if InClass(s[i], p) {
      SkipWhileExtend(s, t, i + 1, p);
    }
  }

  /** `.*$` applied to the rest of a string: the dot stops at a line break,
      and the end anchor also matches just before a line break that ends
      the string. */
  function LineEnd(s: string): (r: Option<string>)
    ensures r.Some? ==> '\n' !in r.value && StartsWith(s, r.value)
    ensures r.Some? <==> '\n' !in s || (s[|s| - 1] == '\n' && '\n' !in s[..|s| - 1])
    ensures '\n' !in s ==> r == Some(s)
  {
    if '\n' !in s then Some(s)
    else if s[|s| - 1] == '\n' && '\n' !in s[..|s| - 1] then Some(s[..|s| - 1])
    else None
  }

  /** What may follow a `$`-anchored `.*`: nothing, or one final line break. */
  predicate LineTail(t: string) {
    t == "" || t == "\n"
  }

  /** `.*$` reads back a line-break-free text from in front of its tail. */
  lemma {:induction false} LineEndTail(m: string, t: string)
    requires '\n' !in m && LineTail(t)
    ensures LineEnd(m + t) == Some(m)
  {
    if t == "\n" {
      var s := m + t;
      assert s[|s| - 1] == '\n' && s[..|s| - 1] == m;
    } else {
      assert m + t == m;
    }
  }

  /** A non-empty run of whitespace: what `\s+` matches. */
  predicate Blanks(w: string) {
    |w| > 0 && forall k :: 0 <= k < |w| ==> IsSpace(w[k])
  }

  /** A string is the concatenation of its slices between four cut points. */
  lemma {:induction false} SplitAt(s: string, i: nat, j: nat, k: nat, l: nat)
    requires i <= j <= k <= l <= |s|
    ensures s == s[..i] + s[i..j] + s[j..k] + s[k..l] + s[l..]
  {
    assert s[..j] == s[..i] + s[i..j];
    assert s[..k] == s[..j] + s[j..k];
    assert s[..l] == s[..k] + s[k..l];
    assert s == s[..l] + s[l..];
  }

  /** A non-empty stretch the whitespace scan passed over is a run. */
  lemma {:induction false} BlankRun(s: string, i: nat, j: nat)
    requires i < j <= |s| && forall k :: i <= k < j ==> InClass(s[k], Space)
    ensures Blanks(s[i..j])
  {
    assert forall k :: 0 <= k < j - i ==> s[i..j][k] == s[i + k];
  }

  /** A string is what comes before position `g`, the character there and
      what follows it. */
  lemma {:induction false} SplitAround(s: string, g: nat)
    requires g < |s|
    ensures s == s[..g] + [s[g]] + s[g + 1..]
  {
    assert s[..g + 1] == s[..g] + [s[g]];
    assert s == s[..g + 1] + s[g + 1..];
  }

  /** A string is the concatenation of five pieces exactly when each piece
      sits at its offset. */
  lemma {:induction false} Pieces(s: string, a: string, b: string, c: string, d: string, e: string)
    requires |a| + |b| + |c| + |d| <= |s|
    ensures var i := |a|; var j := i + |b|; var k := j + |c|; var l := k + |d|;
            s == a + b + c + d + e <==>
            s[..i] == a && s[i..j] == b && s[j..k] == c && s[k..l] == d && s[l..] == e
  {
    var i := |a|;
    var j := i + |b|;
    var k := j + |c|;
    var l := k + |d|;
    if s == a + b + c + d + e {
      assert s[..i] == a;
      assert s[i..j] == b;
      assert s[j..k] == c;
      assert s[k..l] == d;
      assert s[l..] == e;
    }
    if s[..i] == a && s[i..j] == b && s[j..k] == c && s[k..l] == d && s[l..] == e {
      SplitAt(s, i, j, k, l);
    }
  }

  predicate StartsWith(s: string, prefix: string) {
    |prefix| <= |s| && s[..|prefix|] == prefix
  }

  predicate OccursAt(s: string, t: string, j: nat) {
    j + |t| <= |s| && s[j..j + |t|] == t
  }

  /** Python's `t in s`, equivalently `s.find(t) != -1`. */
  predicate Contains(s: string, t: string) {
    exists j :: 0 <= j <= |s| && OccursAt(s, t, j)
  }

  function IndexFrom(s: string, t: string, i: nat): (r: Option<nat>)
    requires i <= |s|
    decreases |s| - i
    ensures r.Some? ==> i <= r.value && OccursAt(s, t, r.value)
    ensures r.Some? ==> forall j :: i <= j < r.value ==> !OccursAt(s, t, j)
    ensures r.None? ==> forall j :: i <= j <= |s| ==> !OccursAt(s, t, j)
  {
    if OccursAt(s, t, i) then Some(i)
    else if i == |s| then None
    else IndexFrom(s, t, i + 1)
  }

  /** Python's `s.find(t)`, with `None` for -1: the first occurrence. */
  function IndexOf(s: string, t: string): (r: Option<nat>)
    ensures r.Some? ==> OccursAt(s, t, r.value) && forall j :: 0 <= j < r.value ==> !OccursAt(s, t, j)
    ensures r.Some? <==> Contains(s, t)
  {
    IndexFrom(s, t, 0)
  }

  /** The last occurrence of `t` in `s` that starts between `lo` and
      `hi`, both included: where a greedy `.+` before `t` stops. */
  function LastBetween(s: string, t: string, lo: nat, hi: nat): (r: Option<nat>)
    requires hi <= |s|
    decreases hi
    ensures r.Some? ==> lo <= r.value <= hi && OccursAt(s, t, r.value)
    ensures r.Some? ==> forall k :: r.value < k <= hi ==> !OccursAt(s, t, k)
    ensures r.None? ==> forall k :: lo <= k <= hi ==> !OccursAt(s, t, k)
  {
    if hi < lo then None
    else if OccursAt(s, t, hi) then Some(hi)
    else if hi == 0 then None
    else LastBetween(s, t, lo, hi - 1)
  }

  /** Python's `s.rstrip(c)` for a single character `c`. */
  function RStripChar(s: string, c: char): (r: string)
    ensures |r| <= |s| && r == s[..|r|]
    ensures |r| == 0 || r[|r| - 1] != c
    ensures forall i :: |r| <= i < |s| ==> s[i] == c
  {
    if |s| > 0 && s[|s| - 1] == c then RStripChar(s[..|s| - 1], c) else s
  }

  /** Python's `s.replace(a, b)` for single characters. */
  function ReplaceChar(s: string, a: char, b: char): (r: string)
    ensures |r| == |s| && forall i :: 0 <= i < |s| ==> r[i] == if s[i] == a then b else s[i]
  {
    seq(|s|, i requires 0 <= i < |s| => if s[i] == a then b else s[i])
  }

  /** Python's `s.rstrip()`. */
  function RStrip(s: string): (r: string)
    ensures |r| <= |s| && r == s[..|r|]
    ensures |r| == 0 || !IsSpace(r[|r| - 1])
    ensures forall i :: |r| <= i < |s| ==> IsSpace(s[i])
  {
    if |s| > 0 && IsSpace(s[|s| - 1]) then RStrip(s[..|s| - 1]) else s
  }

  /** Every line with its trailing whitespace removed. */
  function StripAll(lines: seq<string>): (r: seq<string>)
    ensures |r| == |lines| && forall i :: 0 <= i < |lines| ==> r[i] == RStrip(lines[i])
  {
    seq(|lines|, i requires 0 <= i < |lines| => RStrip(lines[i]))
  }

  /** Python's `s.lstrip(chars)`: drops leading characters that belong to
      the set, which is not the same as removing a prefix. */
  function LStripChars(s: string, chars: set<char>): (r: string)
    ensures |r| <= |s| && r == s[|s| - |r|..]
    ensures |r| == 0 || r[0] !in chars
    ensures forall i :: 0 <= i < |s| - |r| ==> s[i] in chars
  {
    if |s| > 0 && s[0] in chars then LStripChars(s[1..], chars) else s
  }

  /** Characters of the set at the front are all dropped. */
  lemma {:induction false} LStripSkips(p: string, s: string, chars: set<char>)
    requires forall k :: 0 <= k < |p| ==> p[k] in chars
    ensures LStripChars(p + s, chars) == LStripChars(s, chars)
  {
    if p != [] {
      assert (p + s)[0] == p[0] && (p + s)[1..] == p[1..] + s;
      LStripSkips(p[1..], s, chars);
      assert LStripChars(p + s, chars) == LStripChars(p[1..] + s, chars);
    } else {
      assert p + s == s;
    }
  }

  /** Nothing is dropped when the first character is not in the set. */
  lemma {:induction false} LStripKeeps(s: string, chars: set<char>)
    requires s == [] || s[0] !in chars
    ensures LStripChars(s, chars) == s
  {
  }

  /** A fixed-width pattern: in the template `#` is one `\d`, `@` one
      `[A-Z]`, `?` is one `.`, and any other character stands for itself. */
  predicate MatchesTemplate(s: string, template: string) {
    && |s| == |template|
    && forall i :: 0 <= i < |s| ==>
         if template[i] == '#' then IsDigit(s[i])
         else if template[i] == '@' then IsUpper(s[i])
         else if template[i] == '?' then s[i] != '\n'
         else s[i] == template[i]
  }

  /** A slice of a matching string matches the same slice of the
      template. */
  lemma {:induction false} MatchesTemplateSlice(s: string, template: string, i: nat, j: nat)
    requires MatchesTemplate(s, template) && i <= j <= |s|
    ensures MatchesTemplate(s[i..j], template[i..j])
  {
    forall k | 0 <= k < j - i
      ensures var c := template[i..j][k];
              if c == '#' then IsDigit(s[i..j][k])
              else if c == '@' then IsUpper(s[i..j][k])
              else if c == '?' then s[i..j][k] != '\n'
              else s[i..j][k] == c
    {
      assert s[i..j][k] == s[i + k] && template[i..j][k] == template[i + k];
    }
  }

  /** Python's `int()` on a run of ASCII digits. */
  function DigitsValue(s: string): nat
    requires AllDigits(s)
  {
    if s == [] then 0 else DigitsValue(s[..|s| - 1]) * 10 + (s[|s| - 1] as int - '0' as int)
  }

  /** Python's `<` on `str`: lexicographic by code point, a proper prefix
      being smaller. */
  predicate LexLess(a: string, b: string) {
    |b| > 0 && (|a| == 0 || a[0] < b[0] || (a[0] == b[0] && LexLess(a[1..], b[1..])))
  }

  lemma {:induction false} LexLessIrreflexive(a: string)
    ensures !LexLess(a, a)
  {
    if |a| > 0 { LexLessIrreflexive(a[1..]); }
  }

  lemma {:induction false} LexLessTransitive(a: string, b: string, c: string)
    requires LexLess(a, b) && LexLess(b, c)
    ensures LexLess(a, c)
  {
    if |a| > 0 && a[0] == b[0] && b[0] == c[0] {
      LexLessTransitive(a[1..], b[1..], c[1..]);
    }
  }

  lemma {:induction false} LexLessTotal(a: string, b: string)
    requires a != b
    ensures LexLess(a, b) || LexLess(b, a)
  {
    if |a| > 0 && |b| > 0 && a[0] == b[0] {
      assert a == [a[0]] + a[1..] && b == [b[0]] + b[1..];
      LexLessTotal(a[1..], b[1..]);
    }
  }

  lemma {:induction false} LexLessAsymmetric(a: string, b: string)
    requires LexLess(a, b)
    ensures !LexLess(b, a)
  {
    if |a| > 0 && a[0] == b[0] { LexLessAsymmetric(a[1..], b[1..]); }
  }
}
