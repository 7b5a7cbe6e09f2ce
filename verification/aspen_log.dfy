/** The Aspen application-log reader: its header dialect with the optional
    message-id prefix, the per-file reconstruction, and the multi-file merge
    ordered by timestamp. */
module AspenLog {
  import opened Wrappers
  import opened Text

  /** The named captures of an Aspen header line. */
  datatype AspenHeader = AspenHeader(timestamp: string, level: string, source: string, logtype: string, remainder: string)

  /** One Aspen log entry. */
  datatype AspenEntry = AspenEntry(
    timestamp: string,
    level: string,
    source: string,
    logtype: string,
    id: string,
    message: string,
    lines: seq<string>)

  // ---------------------------------------------------------------------
  // The timestamp `\d+-\d+-\d+ \d+:\d+:\d+ .\d+`

  /** `\d+` then the separator, from position `i`: the position just after
      the separator. */
  function DigitsThen(line: string, i: nat, sep: char): (r: Option<nat>)
    requires i <= |line|
    ensures r.Some? ==> i + 2 <= r.value <= |line| && line[r.value - 1] == sep
    ensures r.Some? ==> forall k :: i <= k < r.value - 1 ==> IsDigit(line[k])
  {
    var j := SkipWhile(line, i, Digit);
    SkipWhileAll(line, i, Digit);
    if j == i || j == |line| || line[j] != sep then None else Some(j + 1)
  }

  /** Where the timestamp pattern, matched at the start of the line, ends:
      the final digit run is greedy, so the end is the first non-digit
      after it (or the end of the line). */
  function TimestampEnd(line: string): (r: Option<nat>)
    ensures r.Some? ==> 0 < r.value <= |line|
    ensures r.Some? && r.value < |line| ==> !IsDigit(line[r.value])
  {
    match DigitsThen(line, 0, '-')
    case None => None
    case Some(a) =>
      match DigitsThen(line, a, '-')
      case None => None
      case Some(b) =>
        match DigitsThen(line, b, ' ')
        case None => None
        case Some(c) => TimeEnd(line, c)
  }

  /** `\d+:\d+:\d+ .\d+` from position `c`. */
  function TimeEnd(line: string, c: nat): (r: Option<nat>)
    requires c <= |line|
    ensures r.Some? ==> c < r.value <= |line|
    ensures r.Some? && r.value < |line| ==> !IsDigit(line[r.value])
  {
    match DigitsThen(line, c, ':')
    case None => None
    case Some(d) =>
      match DigitsThen(line, d, ':')
      case None => None
      case Some(e) =>
        match DigitsThen(line, e, ' ')
        case None => None
        case Some(f) =>
          if f == |line| || line[f] == '\n' then None
          else
            var g := SkipWhile(line, f + 1, Digit);
            if g == f + 1 then None else Some(g)
  }

  /** A string the timestamp pattern matches exactly. */
  predicate IsTimestamp(ts: string) {
    TimestampEnd(ts) == Some(|ts|)
  }

  lemma {:induction false} DigitsThenConcat(s: string, t: string, i: nat, sep: char)
    requires i <= |s|
    ensures DigitsThen(s, i, sep).Some? ==> DigitsThen(s + t, i, sep) == DigitsThen(s, i, sep)
    ensures DigitsThen(s + t, i, sep).Some? && DigitsThen(s + t, i, sep).value <= |s| ==>
              DigitsThen(s, i, sep) == DigitsThen(s + t, i, sep)
  {
    var j := SkipWhile(s, i, Digit);
    if j < |s| {
      SkipWhileExtend(s, t, i, Digit);
      assert (s + t)[j] == s[j];
    } else {
      SkipWhileReaches(s, t, i, Digit);
    }
  }

  /** A scan that runs to the end of `s` runs at least that far in `s + t`. */
  lemma {:induction false} SkipWhileReaches(s: string, t: string, i: nat, p: CharClass)
    requires i <= |s| && SkipWhile(s, i, p) == |s|
    ensures SkipWhile(s + t, i, p) >= |s|
    decreases |s| - i
  {
    if i < |s| {
      assert (s + t)[i] == s[i];
      SkipWhileReaches(s, t, i + 1, p);
    }
  }

  /** A final digit run that ends a string ends at the same place when a
      non-digit follows. */
  lemma {:induction false} DigitRunConcat(s: string, t: string, i: nat)
    requires i <= |s| && SkipWhile(s, i, Digit) == |s|
    requires t == [] || !IsDigit(t[0])
    ensures SkipWhile(s + t, i, Digit) == |s|
    decreases |s| - i
  {
    if i < |s| {
      assert (s + t)[i] == s[i];
      DigitRunConcat(s, t, i + 1);
    } else if t != [] {
      assert (s + t)[i] == t[0];
    }
  }

  /** The timestamp scan only looks at the timestamp and the character
      after it. */
  lemma {:induction false} TimestampEndConcat(s: string, t: string)
    requires IsTimestamp(s) && (t == [] || !IsDigit(t[0]))
    ensures TimestampEnd(s + t) == Some(|s|)
  {
    var a := DigitsThen(s, 0, '-').value;
    DigitsThenConcat(s, t, 0, '-');
    var b := DigitsThen(s, a, '-').value;
    DigitsThenConcat(s, t, a, '-');
    var c := DigitsThen(s, b, ' ').value;
    DigitsThenConcat(s, t, b, ' ');
    TimeEndConcat(s, t, c);
  }

  lemma {:induction false} TimeEndConcat(s: string, t: string, c: nat)
    requires c <= |s| && TimeEnd(s, c) == Some(|s|) && (t == [] || !IsDigit(t[0]))
    ensures TimeEnd(s + t, c) == Some(|s|)
  {
    var d := DigitsThen(s, c, ':').value;
    DigitsThenConcat(s, t, c, ':');
    var e := DigitsThen(s, d, ':').value;
    DigitsThenConcat(s, t, d, ':');
    var f := DigitsThen(s, e, ' ').value;
    DigitsThenConcat(s, t, e, ' ');
    assert (s + t)[f] == s[f];
    DigitRunConcat(s, t, f + 1);
  }

  /** A digit run and its separator inside `line[..g]` read the same in
      the prefix. */
  lemma {:induction false} DigitsThenPrefix(line: string, g: nat, i: nat, sep: char)
    requires i <= g <= |line| && DigitsThen(line, i, sep).Some? && DigitsThen(line, i, sep).value <= g
    ensures DigitsThen(line[..g], i, sep) == DigitsThen(line, i, sep)
  {
    assert line == line[..g] + line[g..];
    DigitsThenConcat(line[..g], line[g..], i, sep);
  }

  /** Cutting the line where the timestamp ends leaves a timestamp. */
  lemma {:induction false} TimestampEndPrefix(line: string)
    requires TimestampEnd(line).Some?
    ensures IsTimestamp(line[..TimestampEnd(line).value])
  {
    var g := TimestampEnd(line).value;
    var a := DigitsThen(line, 0, '-').value;
    DigitsThenPrefix(line, g, 0, '-');
    var b := DigitsThen(line, a, '-').value;
    DigitsThenPrefix(line, g, a, '-');
    var c := DigitsThen(line, b, ' ').value;
    DigitsThenPrefix(line, g, b, ' ');
    TimeEndPrefix(line, g, c);
  }

  lemma {:induction false} TimeEndPrefix(line: string, g: nat, c: nat)
    requires c <= g <= |line| && TimeEnd(line, c) == Some(g)
    ensures TimeEnd(line[..g], c) == Some(g)
  {
    var d := DigitsThen(line, c, ':').value;
    DigitsThenPrefix(line, g, c, ':');
    var e := DigitsThen(line, d, ':').value;
    DigitsThenPrefix(line, g, d, ':');
    var f := DigitsThen(line, e, ' ').value;
    DigitsThenPrefix(line, g, e, ' ');
    SkipWhileAll(line, f + 1, Digit);
    SkipWhileIs(line[..g], f + 1, Digit, g);
  }

  // ---------------------------------------------------------------------
  // The header `TIMESTAMP\sLEVEL:\s+[SOURCE]\s+[LOGTYPE]\sREMAINDER`

  /** What the header pattern can capture. */
  predicate WellFormedAspenHeader(h: AspenHeader) {
    IsTimestamp(h.timestamp) && FieldsWellFormed(h)
  }

  /** Everything but the timestamp. */
  predicate FieldsWellFormed(h: AspenHeader) {
    && |h.level| > 0 && (forall i :: 0 <= i < |h.level| ==> IsAlnum(h.level[i]))
    && |h.source| > 0 && (forall i :: 0 <= i < |h.source| ==> h.source[i] != ']')
    && |h.logtype| > 0 && (forall i :: 0 <= i < |h.logtype| ==> h.logtype[i] != ']')
    && (forall i :: 0 <= i < |h.remainder| ==> h.remainder[i] != '\n')
  }

  /** A header line with single blanks where the pattern allows whitespace. */
  function RenderAspen(h: AspenHeader): string {
    h.timestamp + (" " + (h.level + (": [" + (h.source + ("] [" + (h.logtype + ("] " + h.remainder)))))))
  }

  /** The header pattern anchored at the start of the line; the remainder
      runs to the first line break. Every repeated part is followed by a
      character its class excludes, so the greedy scan is the only match. */
  function ParseAspenHeader(line: string): (r: Option<AspenHeader>)
    ensures r.Some? ==> WellFormedAspenHeader(r.value)
    ensures r.Some? ==> StartsWith(line, r.value.timestamp)
  {
    match TimestampEnd(line)
    case None => None
    case Some(g) =>
      if g == |line| || !IsSpace(line[g]) then None
      else
        TimestampEndPrefix(line);
        ParseLevel(line[g + 1..], line[..g])
  }

  /** `LEVEL:\s+[` at the start of `t`, then the rest of the header. */
  function ParseLevel(t: string, timestamp: string): (r: Option<AspenHeader>)
    ensures r.Some? ==> FieldsWellFormed(r.value) && r.value.timestamp == timestamp
  {
    var h := SkipWhile(t, 0, Alnum);
    SkipWhileAll(t, 0, Alnum);
    if h == 0 || h == |t| || t[h] != ':' then None
    else
      var j := SkipWhile(t, h + 1, Space);
      if j == h + 1 || j == |t| || t[j] != '[' then None
      else ParseSource(t[j + 1..], timestamp, t[..h])
  }

  /** `SOURCE]\s+[` at the start of `u`, then the rest of the header. */
  function ParseSource(u: string, timestamp: string, level: string): (r: Option<AspenHeader>)
    requires |level| > 0 && forall x :: 0 <= x < |level| ==> IsAlnum(level[x])
    ensures r.Some? ==> FieldsWellFormed(r.value)
    ensures r.Some? ==> r.value.timestamp == timestamp && r.value.level == level
  {
    var l := SkipWhile(u, 0, NotBracket);
    SkipWhileAll(u, 0, NotBracket);
    if l == 0 || l == |u| then None
    else
      var m := SkipWhile(u, l + 1, Space);
      if m == l + 1 || m == |u| || u[m] != '[' then None
      else ParseLogtype(u[m + 1..], timestamp, level, u[..l])
  }

  /** `LOGTYPE]\s.*` at the start of `v`: the remainder runs to the first
      line break. */
  function ParseLogtype(v: string, timestamp: string, level: string, source: string): (r: Option<AspenHeader>)
    requires |level| > 0 && forall x :: 0 <= x < |level| ==> IsAlnum(level[x])
    requires |source| > 0 && forall x :: 0 <= x < |source| ==> source[x] != ']'
    ensures r.Some? ==> FieldsWellFormed(r.value)
    ensures r.Some? ==> r.value.timestamp == timestamp && r.value.level == level && r.value.source == source
  {
    var n := SkipWhile(v, 0, NotBracket);
    SkipWhileAll(v, 0, NotBracket);
    if n == 0 || n + 1 >= |v| || !IsSpace(v[n + 1]) then None
    else
      var e := SkipWhile(v, n + 2, NotNewline);
      SkipWhileAll(v, n + 2, NotNewline);
      Some(AspenHeader(timestamp, level, source, v[..n], v[n + 2..e]))
  }

  // ---------------------------------------------------------------------
  // The header line laid out piece by piece

  /** What may follow the remainder: nothing, or text from a line break on
      (`.*` stops at the break and the pattern has no end anchor). */
  predicate AfterRemainder(rest: string) {
    rest == [] || rest[0] == '\n'
  }

  /** `LOGTYPE]`, one whitespace character, the remainder and what follows
      it. */
  function LogtypeText(h: AspenHeader, s4: char, rest: string): string {
    h.logtype + "]" + [s4] + h.remainder + rest
  }

  /** `SOURCE]`, a whitespace run, `[` and the logtype part. */
  function SourceText(h: AspenHeader, w3: string, s4: char, rest: string): string {
    h.source + "]" + w3 + "[" + LogtypeText(h, s4, rest)
  }

  /** `LEVEL:`, a whitespace run, `[` and the source part. */
  function LevelText(h: AspenHeader, w2: string, w3: string, s4: char, rest: string): string {
    h.level + ":" + w2 + "[" + SourceText(h, w3, s4, rest)
  }

  /** A line read against the header pattern: the timestamp, one whitespace
      character, `LEVEL:`, a whitespace run, `[SOURCE]`, a whitespace run,
      `[LOGTYPE]`, one whitespace character and the remainder, which ends at
      the first line break. */
  predicate AspenLaidOut(line: string, h: AspenHeader, s1: char, w2: string, w3: string, s4: char, rest: string) {
    && IsSpace(s1) && Blanks(w2) && Blanks(w3) && IsSpace(s4) && AfterRemainder(rest)
    && line == h.timestamp + [s1] + LevelText(h, w2, w3, s4, rest)
  }

  lemma {:induction false} LogtypePieces(v: string, timestamp: string, level: string, source: string)
    returns (s4: char, rest: string)
    requires |level| > 0 && forall x :: 0 <= x < |level| ==> IsAlnum(level[x])
    requires |source| > 0 && forall x :: 0 <= x < |source| ==> source[x] != ']'
    requires ParseLogtype(v, timestamp, level, source).Some?
    ensures IsSpace(s4) && AfterRemainder(rest)
    ensures v == LogtypeText(ParseLogtype(v, timestamp, level, source).value, s4, rest)
  {
    var h := ParseLogtype(v, timestamp, level, source).value;
    var n := SkipWhile(v, 0, NotBracket);
    var e := SkipWhile(v, n + 2, NotNewline);
    s4 := v[n + 1];
    rest := v[e..];
    assert v[n..n + 1] == "]" && v[n + 1..n + 2] == [s4];
    assert h.logtype == v[..n] && h.remainder == v[n + 2..e];
    Pieces(v, h.logtype, "]", [s4], h.remainder, rest);
  }

  lemma {:induction false} LogtypeAccepts(v: string, h: AspenHeader, s4: char, rest: string)
    requires FieldsWellFormed(h) && IsSpace(s4) && AfterRemainder(rest)
    requires v == LogtypeText(h, s4, rest)
    ensures ParseLogtype(v, h.timestamp, h.level, h.source) == Some(h)
  {
    var n := |h.logtype|;
    var e := n + 2 + |h.remainder|;
    Pieces(v, h.logtype, "]", [s4], h.remainder, rest);
    assert forall x :: 0 <= x < n ==> v[x] == v[..n][x];
    assert v[n] == v[n..n + 1][0] && v[n + 1] == v[n + 1..n + 2][0];
    assert forall x :: n + 2 <= x < e ==> v[x] == v[n + 2..e][x - n - 2];
    if e < |v| {
      assert v[e] == v[e..][0];
    }
    SkipWhileIs(v, 0, NotBracket, n);
    SkipWhileIs(v, n + 2, NotNewline, e);
  }

  /** One stage of the source scan: past `SOURCE]` and the whitespace run
      after it, the logtype scan takes over after the `[` at `m`. */
  lemma {:induction false} SourceSteps(u: string, timestamp: string, level: string, l: nat, m: nat)
    requires |level| > 0 && forall x :: 0 <= x < |level| ==> IsAlnum(level[x])
    requires l == SkipWhile(u, 0, NotBracket) && 0 < l < |u|
    requires m == SkipWhile(u, l + 1, Space) && l + 1 < m < |u| && u[m] == '['
    ensures forall x :: 0 <= x < |u[..l]| ==> u[..l][x] != ']'
    ensures ParseSource(u, timestamp, level) == ParseLogtype(u[m + 1..], timestamp, level, u[..l])
  {
    SkipWhileAll(u, 0, NotBracket);
  }

  lemma {:induction false} SourcePieces(u: string, timestamp: string, level: string)
    returns (w3: string, s4: char, rest: string)
    requires |level| > 0 && forall x :: 0 <= x < |level| ==> IsAlnum(level[x])
    requires ParseSource(u, timestamp, level).Some?
    ensures Blanks(w3) && IsSpace(s4) && AfterRemainder(rest)
    ensures u == SourceText(ParseSource(u, timestamp, level).value, w3, s4, rest)
  {
    var l := SkipWhile(u, 0, NotBracket);
    var m := SkipWhile(u, l + 1, Space);
    SkipWhileAll(u, l + 1, Space);
    SourceSteps(u, timestamp, level, l, m);
    var h := ParseLogtype(u[m + 1..], timestamp, level, u[..l]).value;
    s4, rest := LogtypePieces(u[m + 1..], timestamp, level, u[..l]);
    w3 := u[l + 1..m];
    BlankRun(u, l + 1, m);
    assert u[l] == ']';
    SourceGlue(u, h, l, m, s4, rest);
  }

  lemma {:induction false} SourceGlue(u: string, h: AspenHeader, l: nat, m: nat, s4: char, rest: string)
    requires l < m < |u| && u[..l] == h.source && u[l] == ']' && u[m] == '['
    requires u[m + 1..] == LogtypeText(h, s4, rest)
    ensures u == SourceText(h, u[l + 1..m], s4, rest)
  {
    assert u[l..l + 1] == "]" && u[m..m + 1] == "[";
    Pieces(u, h.source, "]", u[l + 1..m], "[", LogtypeText(h, s4, rest));
  }

  lemma {:induction false} SourceAccepts(u: string, h: AspenHeader, w3: string, s4: char, rest: string)
    requires FieldsWellFormed(h) && Blanks(w3) && IsSpace(s4) && AfterRemainder(rest)
    requires u == SourceText(h, w3, s4, rest)
    ensures ParseSource(u, h.timestamp, h.level) == Some(h)
  {
    var l := |h.source|;
    var m := l + 1 + |w3|;
    Pieces(u, h.source, "]", w3, "[", LogtypeText(h, s4, rest));
    assert forall x :: 0 <= x < l ==> u[x] == u[..l][x];
    assert u[l] == u[l..l + 1][0];
    assert forall x :: l + 1 <= x < m ==> u[x] == u[l + 1..m][x - l - 1];
    assert u[m] == u[m..m + 1][0];
    SkipWhileIs(u, 0, NotBracket, l);
    SkipWhileIs(u, l + 1, Space, m);
    SourceSteps(u, h.timestamp, h.level, l, m);
    LogtypeAccepts(u[m + 1..], h, s4, rest);
  }

  /** One stage of the level scan: past `LEVEL:` and the whitespace run
      after it, the source scan takes over after the `[` at `j`. */
  lemma {:induction false} LevelSteps(t: string, timestamp: string, hh: nat, j: nat)
    requires hh == SkipWhile(t, 0, Alnum) && 0 < hh < |t| && t[hh] == ':'
    requires j == SkipWhile(t, hh + 1, Space) && hh + 1 < j < |t| && t[j] == '['
    ensures |t[..hh]| > 0 && forall x :: 0 <= x < |t[..hh]| ==> IsAlnum(t[..hh][x])
    ensures ParseLevel(t, timestamp) == ParseSource(t[j + 1..], timestamp, t[..hh])
  {
    SkipWhileAll(t, 0, Alnum);
  }

  lemma {:induction false} LevelPieces(t: string, timestamp: string)
    returns (w2: string, w3: string, s4: char, rest: string)
    requires ParseLevel(t, timestamp).Some?
    ensures Blanks(w2) && Blanks(w3) && IsSpace(s4) && AfterRemainder(rest)
    ensures t == LevelText(ParseLevel(t, timestamp).value, w2, w3, s4, rest)
  {
    var hh := SkipWhile(t, 0, Alnum);
    var j := SkipWhile(t, hh + 1, Space);
    SkipWhileAll(t, hh + 1, Space);
    LevelSteps(t, timestamp, hh, j);
    var h := ParseSource(t[j + 1..], timestamp, t[..hh]).value;
    w3, s4, rest := SourcePieces(t[j + 1..], timestamp, t[..hh]);
    w2 := t[hh + 1..j];
    BlankRun(t, hh + 1, j);
    LevelGlue(t, h, hh, j, w3, s4, rest);
  }

  lemma {:induction false} LevelGlue(t: string, h: AspenHeader, hh: nat, j: nat, w3: string, s4: char, rest: string)
    requires hh < j < |t| && t[..hh] == h.level && t[hh] == ':' && t[j] == '['
    requires t[j + 1..] == SourceText(h, w3, s4, rest)
    ensures t == LevelText(h, t[hh + 1..j], w3, s4, rest)
  {
    assert t[hh..hh + 1] == ":" && t[j..j + 1] == "[";
    Pieces(t, h.level, ":", t[hh + 1..j], "[", SourceText(h, w3, s4, rest));
  }

  lemma {:induction false} LevelAccepts(t: string, h: AspenHeader, w2: string, w3: string, s4: char, rest: string)
    requires FieldsWellFormed(h) && Blanks(w2) && Blanks(w3) && IsSpace(s4) && AfterRemainder(rest)
    requires t == LevelText(h, w2, w3, s4, rest)
    ensures ParseLevel(t, h.timestamp) == Some(h)
  {
    var hh := |h.level|;
    var j := hh + 1 + |w2|;
    Pieces(t, h.level, ":", w2, "[", SourceText(h, w3, s4, rest));
    assert forall x :: 0 <= x < hh ==> t[x] == t[..hh][x];
    assert t[hh] == t[hh..hh + 1][0];
    assert forall x :: hh + 1 <= x < j ==> t[x] == t[hh + 1..j][x - hh - 1];
    assert t[j] == t[j..j + 1][0];
    SkipWhileIs(t, 0, Alnum, hh);
    SkipWhileIs(t, hh + 1, Space, j);
    LevelSteps(t, h.timestamp, hh, j);
    SourceAccepts(t[j + 1..], h, w3, s4, rest);
  }

  /** The timestamp ends at `g` and a whitespace character follows. */
  lemma {:induction false} TimestampSteps(line: string, g: nat)
    requires TimestampEnd(line) == Some(g) && g < |line| && IsSpace(line[g])
    ensures IsTimestamp(line[..g])
    ensures ParseAspenHeader(line) == ParseLevel(line[g + 1..], line[..g])
  {
    TimestampEndPrefix(line);
  }

  /** A recognised header line is laid out as the pattern describes. */
  lemma {:induction false} AspenHeaderPieces(line: string)
    returns (s1: char, w2: string, w3: string, s4: char, rest: string)
    requires ParseAspenHeader(line).Some?
    ensures AspenLaidOut(line, ParseAspenHeader(line).value, s1, w2, w3, s4, rest)
  {
    var g := TimestampEnd(line).value;
    TimestampSteps(line, g);
    var h := ParseLevel(line[g + 1..], line[..g]).value;
    w2, w3, s4, rest := LevelPieces(line[g + 1..], line[..g]);
    s1 := line[g];
    SplitAround(line, g);
  }

  /** A well-formed header laid out as the pattern describes is recognised,
      each field captured exactly. */
  lemma {:induction false} AspenHeaderAccepts(line: string, h: AspenHeader, s1: char, w2: string, w3: string, s4: char, rest: string)
    requires WellFormedAspenHeader(h) && AspenLaidOut(line, h, s1, w2, w3, s4, rest)
    ensures ParseAspenHeader(line) == Some(h)
  {
    var g := |h.timestamp|;
    var t := LevelText(h, w2, w3, s4, rest);
    assert line == h.timestamp + ([s1] + t);
    TimestampEndConcat(h.timestamp, [s1] + t);
    assert line[g] == s1 && line[..g] == h.timestamp && line[g + 1..] == t;
    TimestampSteps(line, g);
    LevelAccepts(t, h, w2, w3, s4, rest);
  }

  /** The header pattern recognises a line exactly when it is a well-formed
      header laid out with whitespace where the pattern has `\s` and `\s+`,
      and then it captures exactly that header. */
  lemma {:induction false} ParseAspenHeaderLayout(line: string, h: AspenHeader)
    ensures ParseAspenHeader(line) == Some(h) <==>
            WellFormedAspenHeader(h) && exists s1, w2, w3, s4, rest :: AspenLaidOut(line, h, s1, w2, w3, s4, rest)
  {
    if ParseAspenHeader(line) == Some(h) {
      var s1, w2, w3, s4, rest := AspenHeaderPieces(line);
    }
    if WellFormedAspenHeader(h) && exists s1, w2, w3, s4, rest :: AspenLaidOut(line, h, s1, w2, w3, s4, rest) {
      var s1, w2, w3, s4, rest :| AspenLaidOut(line, h, s1, w2, w3, s4, rest);
      AspenHeaderAccepts(line, h, s1, w2, w3, s4, rest);
    }
  }

  /** Every well-formed header is recognised in its rendered form, with
      each field captured back exactly. */
  lemma {:induction false} ParseRenderAspen(h: AspenHeader)
    requires WellFormedAspenHeader(h)
    ensures ParseAspenHeader(RenderAspen(h)) == Some(h)
  {
    var line := RenderAspen(h);
    assert line == h.timestamp + [' '] + LevelText(h, " ", " ", ' ', "");
    AspenHeaderAccepts(line, h, ' ', " ", " ", ' ', "");
  }

  // ---------------------------------------------------------------------
  // The message id `^[A-Z]{3}-\d{5}:\s*(.*)$` inside the remainder

  const IdTemplate := "@@@-#####"

  /** The id and the message of a remainder: with a leading id the message
      is what follows the colon and the blanks after it; otherwise the id
      is empty and the message is the whole remainder. The greedy blank
      run and the `.*$` tail leave no other way to match. */
  function SplitMessageId(remainder: string): (r: (string, string))
    ensures r.0 == [] || MatchesTemplate(r.0, IdTemplate)
    ensures |r.1| <= |remainder|
    ensures !(|remainder| >= 10 && MatchesTemplate(remainder[..10], IdTemplate + ":")) ==> r == ([], remainder)
  {
    if |remainder| >= 10 && MatchesTemplate(remainder[..10], IdTemplate + ":") then
      var w := SkipWhile(remainder, 10, Space);
      match LineEnd(remainder[w..])
      case Some(message) =>
        assert forall x :: 0 <= x < 9 ==> remainder[..9][x] == remainder[..10][x];
        (remainder[..9], message)
      case None => ([], remainder)
    else ([], remainder)
  }

  /** On a line-break-free remainder that starts with an id and a colon,
      the id is those nine characters and the message is the remainder
      after the colon with the leading blanks removed. */
  lemma {:induction false} SplitMessageIdMatch(remainder: string)
    requires |remainder| >= 10 && MatchesTemplate(remainder[..10], IdTemplate + ":")
    requires forall x :: 0 <= x < |remainder| ==> remainder[x] != '\n'
    ensures var (id, message) := SplitMessageId(remainder);
            var w := |remainder| - |message|;
            && id == remainder[..9]
            && 10 <= w && message == remainder[w..]
            && (forall x :: 10 <= x < w ==> IsSpace(remainder[x]))
            && (message == [] || !IsSpace(message[0]))
  {
    var w := SkipWhile(remainder, 10, Space);
    SkipWhileAll(remainder, 10, Space);
    assert '\n' !in remainder[w..] by {
      assert forall x :: 0 <= x < |remainder| - w ==> remainder[w..][x] == remainder[w + x];
    }
  }

  /** An id written before its message with a colon and one blank is read
      back, as long as the message has no line break and does not itself
      start with a blank. */
  lemma {:induction false} SplitJoinMessageId(id: string, message: string)
    requires MatchesTemplate(id, IdTemplate)
    requires '\n' !in message && (message == [] || !IsSpace(message[0]))
    ensures SplitMessageId(id + ": " + message) == (id, message)
  {
    var remainder := id + ": " + message;
    assert remainder[..10] == id + ":";
    assert remainder[..9] == id;
    assert remainder[11..] == message;
    if message != [] {
      assert remainder[11] == message[0];
    }
    SkipWhileIs(remainder, 10, Space, 11);
  }

  /** `AspenLogEntry.from_match`: the header's captures, the remainder split
      into id and message, and no continuation lines yet. */
  function FromMatch(h: AspenHeader): (e: AspenEntry)
    ensures e.timestamp == h.timestamp && e.level == h.level && e.source == h.source && e.logtype == h.logtype
    ensures (e.id, e.message) == SplitMessageId(h.remainder) && e.lines == []
  {
    var (id, message) := SplitMessageId(h.remainder);
    AspenEntry(h.timestamp, h.level, h.source, h.logtype, id, message, [])
  }

  // ---------------------------------------------------------------------
  // process_file

  /** A right-stripped line together with what the header pattern made of
      it. */
  datatype AspenLine = AspenLine(text: string, header: Option<AspenHeader>)

  function ScanAspenLine(line: string): AspenLine {
    AspenLine(line, ParseAspenHeader(line))
  }

  function ScanAspenAll(lines: seq<string>): (r: seq<AspenLine>)
    ensures |r| == |lines| && forall i :: 0 <= i < |lines| ==> r[i] == ScanAspenLine(lines[i])
  {
    seq(|lines|, i requires 0 <= i < |lines| => ScanAspenLine(lines[i]))
  }

  /** The entries read so far, and how many lines came before the first
      header (each is reported and otherwise dropped). */
  datatype FileState = FileState(entries: seq<AspenEntry>, diagnostics: nat)

  /** One line of the loop: a header opens an entry, any other line joins
      the last entry, or is reported when there is none. */
  function AspenStep(st: FileState, s: AspenLine): FileState {
    match s.header
    case Some(h) => FileState(st.entries + [FromMatch(h)], st.diagnostics)
    case None =>
      if |st.entries| > 0 then
        var last := st.entries[|st.entries| - 1];
        FileState(st.entries[|st.entries| - 1 := last.(lines := last.lines + [s.text])], st.diagnostics)
      else FileState(st.entries, st.diagnostics + 1)
  }

  function AspenReplay(scan: seq<AspenLine>): FileState {
    if scan == [] then FileState([], 0)
    else AspenStep(AspenReplay(scan[..|scan| - 1]), scan[|scan| - 1])
  }

  /** `process_file` on the lines of one file. */
  function ReadFile(lines: seq<string>): FileState {
    AspenReplay(ScanAspenAll(StripAll(lines)))
  }

  /** The entry each header line opens, in line order: the reference for
      the entries' fixed fields. */
  function Opened(scan: seq<AspenLine>): seq<AspenEntry> {
    if scan == [] then []
    else
      var last := scan[|scan| - 1];
      Opened(scan[..|scan| - 1]) + if last.header.Some? then [FromMatch(last.header.value)] else []
  }

  /** The text of every line that is not a header and comes after some
      header, in line order. */
  function Continuations(scan: seq<AspenLine>): seq<string> {
    if scan == [] then []
    else
      var init, last := scan[..|scan| - 1], scan[|scan| - 1];
      Continuations(init) + if last.header.None? && |Opened(init)| > 0 then [last.text] else []
  }

  /** Lines before the first header line. */
  function LeadingLines(scan: seq<AspenLine>): nat {
    if scan == [] || scan[0].header.Some? then 0 else 1 + LeadingLines(scan[1..])
  }

  /** All continuation lines of all entries, entry by entry. */
  function AllLines(entries: seq<AspenEntry>): seq<string> {
    if entries == [] then [] else AllLines(entries[..|entries| - 1]) + entries[|entries| - 1].lines
  }

  predicate SameHeaderFields(e: AspenEntry, f: AspenEntry) {
    e.(lines := []) == f.(lines := [])
  }

  /** Each header line opens exactly one entry, which keeps the fields read
      from its header; continuation lines never alter them. */
  lemma {:induction false} ReplayOpensOnePerHeader(scan: seq<AspenLine>)
    ensures var entries := AspenReplay(scan).entries;
            && |entries| == |Opened(scan)|
            && forall k :: 0 <= k < |entries| ==> SameHeaderFields(entries[k], Opened(scan)[k])
  {
    if scan != [] {
      ReplayOpensOnePerHeader(scan[..|scan| - 1]);
    }
  }

  /** One line of the loop: a header line appends the entry it opens; any
      other line adds its text after the lines of the last entry, leaving
      that entry's header fields, every earlier entry and the count alone,
      or is only counted when there is no entry yet. */
  lemma {:induction false} StepEffect(st: FileState, s: AspenLine)
    ensures var st' := AspenStep(st, s);
            && (s.header.Some? ==> st' == FileState(st.entries + [FromMatch(s.header.value)], st.diagnostics))
            && (s.header.None? && |st.entries| == 0 ==> st' == FileState([], st.diagnostics + 1))
            && (s.header.None? && |st.entries| > 0 ==>
                  var n := |st.entries|;
                  && st'.diagnostics == st.diagnostics && |st'.entries| == n
                  && st'.entries[..n - 1] == st.entries[..n - 1]
                  && SameHeaderFields(st'.entries[n - 1], st.entries[n - 1])
                  && st'.entries[n - 1].lines == st.entries[n - 1].lines + [s.text])
  {
    if s.header.None? && |st.entries| > 0 {
      var n := |st.entries|;
      assert AspenStep(st, s).entries[..n - 1] == st.entries[..n - 1];
    }
  }

  /** The non-header lines that follow the `k`-th header line (counting
      from 0) and come before the next one. */
  function LinesAfterHeader(scan: seq<AspenLine>, k: nat): seq<string> {
    if scan == [] then []
    else
      var init, last := scan[..|scan| - 1], scan[|scan| - 1];
      LinesAfterHeader(init, k) + if last.header.None? && |Opened(init)| == k + 1 then [last.text] else []
  }

  /** No line follows a header that has not been read yet. */
  lemma {:induction false} NoLinesAfterLaterHeader(scan: seq<AspenLine>, k: nat)
    requires |Opened(scan)| <= k
    ensures LinesAfterHeader(scan, k) == []
  {
    if scan != [] {
      var init := scan[..|scan| - 1];
      NoLinesAfterLaterHeader(init, k);
    }
  }

  /** Each entry holds exactly the non-header lines between its own header
      line and the next header line, in order. */
  lemma {:induction false} ReplayGroupsContinuations(scan: seq<AspenLine>)
    ensures var entries := AspenReplay(scan).entries;
            forall k :: 0 <= k < |entries| ==> entries[k].lines == LinesAfterHeader(scan, k)
  {
    if scan != [] {
      var init, last := scan[..|scan| - 1], scan[|scan| - 1];
      ReplayGroupsContinuations(init);
      ReplayOpensOnePerHeader(init);
      var prev := AspenReplay(init).entries;
      var entries := AspenReplay(scan).entries;
      StepEffect(AspenReplay(init), last);
      forall k | 0 <= k < |entries|
        ensures entries[k].lines == LinesAfterHeader(scan, k)
      {
        if k < |prev| - 1 {
          assert entries[k] == entries[..|prev| - 1][k];
        } else if k == |prev| && last.header.Some? {
          NoLinesAfterLaterHeader(init, k);
        }
      }
    }
  }

  /** Every continuation line after the first header is kept: read entry
      after entry, the entries' lines are those lines in file order. */
  lemma {:induction false} ReplayKeepsContinuations(scan: seq<AspenLine>)
    ensures AllLines(AspenReplay(scan).entries) == Continuations(scan)
  {
    if scan != [] {
      var init := scan[..|scan| - 1];
      ReplayKeepsContinuations(init);
      ReplayOpensOnePerHeader(init);
      var prev := AspenReplay(init).entries;
      var entries := AspenReplay(scan).entries;
      if scan[|scan| - 1].header.Some? {
        assert entries[..|prev|] == prev;
      } else if |prev| > 0 {
        assert entries[..|prev| - 1] == prev[..|prev| - 1];
      }
    }
  }

  lemma {:induction false} LeadingLinesSnoc(scan: seq<AspenLine>, s: AspenLine)
    ensures LeadingLines(scan + [s]) == LeadingLines(scan) + if |Opened(scan)| == 0 && s.header.None? then 1 else 0
  {
    var all := scan + [s];
    if scan != [] {
      assert all[1..] == scan[1..] + [s];
      LeadingLinesSnoc(scan[1..], s);
      OpenedFront(scan);
    }
  }

  lemma {:induction false} OpenedFront(scan: seq<AspenLine>)
    requires scan != []
    ensures |Opened(scan)| == (if scan[0].header.Some? then 1 else 0) + |Opened(scan[1..])|
  {
    if |scan| > 1 {
      var init := scan[..|scan| - 1];
      OpenedFront(init);
      assert init[1..] == scan[1..][..|scan| - 2];
    } else {
      assert scan[1..] == [];
    }
  }

  /** Exactly the lines before the first header are reported. */
  lemma {:induction false} ReplayReportsLeadingLines(scan: seq<AspenLine>)
    ensures AspenReplay(scan).diagnostics == LeadingLines(scan)
  {
    if scan != [] {
      var init := scan[..|scan| - 1];
      ReplayReportsLeadingLines(init);
      ReplayOpensOnePerHeader(init);
      assert scan == init + [scan[|scan| - 1]];
      LeadingLinesSnoc(init, scan[|scan| - 1]);
    }
  }

  /** No line is lost: each opens an entry, joins one, or is reported. */
  lemma {:induction false} ReplayAccountsForEveryLine(scan: seq<AspenLine>)
    ensures var st := AspenReplay(scan);
            |scan| == |st.entries| + |AllLines(st.entries)| + st.diagnostics
  {
    ReplayOpensOnePerHeader(scan);
    ReplayKeepsContinuations(scan);
    ReplayReportsLeadingLines(scan);
    LinesPartition(scan);
  }

  /** Every line is a header, a continuation or a leading line. */
  lemma {:induction false} LinesPartition(scan: seq<AspenLine>)
    ensures |scan| == |Opened(scan)| + |Continuations(scan)| + LeadingLines(scan)
  {
    if scan != [] {
      var init := scan[..|scan| - 1];
      LinesPartition(init);
      LeadingLinesSnoc(init, scan[|scan| - 1]);
      assert scan == init + [scan[|scan| - 1]];
    }
  }

  /** `process_file`: each line right-stripped, then matched against the
      header pattern. */
  method ProcessFile(lines: seq<string>) returns (entries: seq<AspenEntry>, diagnostics: nat)
    ensures FileState(entries, diagnostics) == ReadFile(lines)
  {
    entries, diagnostics := [], 0;
    ghost var scan := ScanAspenAll(StripAll(lines));
    for i := 0 to |lines|
      invariant FileState(entries, diagnostics) == AspenReplay(scan[..i])
    {
      ghost var before := FileState(entries, diagnostics);
      var line := RStrip(lines[i]);
      var m := ParseAspenHeader(line);
      assert scan[i] == AspenLine(line, m);
      match m {
        case Some(h) =>
          entries := entries + [FromMatch(h)];
        case None =>
          if |entries| > 0 {
            var last := entries[|entries| - 1];
            entries := entries[|entries| - 1 := last.(lines := last.lines + [line])];
          } else {
            diagnostics := diagnostics + 1;
          }
      }
      ReplaySnoc(scan, i);
      assert FileState(entries, diagnostics) == AspenStep(before, scan[i]);
    }
    assert scan[..|lines|] == scan;
  }

  lemma {:induction false} ReplaySnoc(scan: seq<AspenLine>, i: nat)
    requires i < |scan|
    ensures AspenReplay(scan[..i + 1]) == AspenStep(AspenReplay(scan[..i]), scan[i])
  {
    assert scan[..i + 1][..i] == scan[..i];
  }

  // ---------------------------------------------------------------------
  // process_aspenlog: every file's entries, then a stable sort on the
  // timestamp text

  /** `s` is ordered by timestamp, compared as Python compares `str`. */
  predicate SortedByTimestamp(s: seq<AspenEntry>) {
    forall i, j :: 0 <= i < j < |s| ==> !LexLess(s[j].timestamp, s[i].timestamp)
  }

  /** Places `e` after every entry whose timestamp is not later than its
      own, so entries with equal timestamps keep their order. */
  function InsertByTimestamp(sorted: seq<AspenEntry>, e: AspenEntry): (r: seq<AspenEntry>)
    ensures |r| == |sorted| + 1
  {
    if sorted == [] || !LexLess(e.timestamp, sorted[|sorted| - 1].timestamp) then sorted + [e]
    else InsertByTimestamp(sorted[..|sorted| - 1], e) + [sorted[|sorted| - 1]]
  }

  /** Python's `list.sort(key=lambda x: x.timestamp)`. */
  function SortByTimestamp(s: seq<AspenEntry>): (r: seq<AspenEntry>)
    ensures |r| == |s|
  {
    if s == [] then []
    else InsertByTimestamp(SortByTimestamp(s[..|s| - 1]), s[|s| - 1])
  }

  /** Inserting adds `e` and loses nothing. */
  lemma {:induction false} InsertIsPermutation(sorted: seq<AspenEntry>, e: AspenEntry)
    ensures multiset(InsertByTimestamp(sorted, e)) == multiset(sorted) + multiset{e}
  {
    if sorted != [] && LexLess(e.timestamp, sorted[|sorted| - 1].timestamp) {
      var init := sorted[..|sorted| - 1];
      InsertIsPermutation(init, e);
      assert sorted == init + [sorted[|sorted| - 1]];
    }
  }

  /** The sort is a permutation of its input. */
  lemma {:induction false} SortIsPermutation(s: seq<AspenEntry>)
    ensures multiset(SortByTimestamp(s)) == multiset(s)
  {
    if s != [] {
      SortIsPermutation(s[..|s| - 1]);
      InsertIsPermutation(SortByTimestamp(s[..|s| - 1]), s[|s| - 1]);
      assert s == s[..|s| - 1] + [s[|s| - 1]];
    }
  }

  /** "Not later than" is transitive. */
  lemma {:induction false} LexLeqTransitive(a: string, b: string, c: string)
    requires !LexLess(b, a) && !LexLess(c, b)
    ensures !LexLess(c, a)
  {
    if LexLess(c, a) && a != b {
      LexLessTotal(a, b);
      LexLessTransitive(c, a, b);
    }
  }

  lemma {:induction false} InsertKeepsSorted(sorted: seq<AspenEntry>, e: AspenEntry)
    requires SortedByTimestamp(sorted)
    ensures SortedByTimestamp(InsertByTimestamp(sorted, e))
    ensures forall x :: x in InsertByTimestamp(sorted, e) ==> x in sorted || x == e
  {
    if sorted != [] && LexLess(e.timestamp, sorted[|sorted| - 1].timestamp) {
      var init := sorted[..|sorted| - 1];
      var last := sorted[|sorted| - 1];
      InsertKeepsSorted(init, e);
      var r := InsertByTimestamp(init, e);
      forall x | x in r ensures !LexLess(last.timestamp, x.timestamp) {
        if x == e {
          LexLessAsymmetric(e.timestamp, last.timestamp);
        } else {
          var i :| 0 <= i < |init| && init[i] == x;
          assert sorted[i] == x;
        }
      }
      assert InsertByTimestamp(sorted, e) == r + [last];
    } else if sorted != [] {
      forall i, j | 0 <= i < j < |sorted| + 1
        ensures !LexLess((sorted + [e])[j].timestamp, (sorted + [e])[i].timestamp)
      {
        if j == |sorted| && i < |sorted| - 1 {
          LexLeqTransitive(sorted[i].timestamp, sorted[|sorted| - 1].timestamp, e.timestamp);
        }
      }
    }
  }

  lemma {:induction false} SortIsSorted(s: seq<AspenEntry>)
    ensures SortedByTimestamp(SortByTimestamp(s))
  {
    if s != [] {
      SortIsSorted(s[..|s| - 1]);
      InsertKeepsSorted(SortByTimestamp(s[..|s| - 1]), s[|s| - 1]);
    }
  }

  /** The entries of `s` stamped `t`, in their order in `s`. */
  function WithTimestamp(s: seq<AspenEntry>, t: string): seq<AspenEntry> {
    if s == [] then []
    else WithTimestamp(s[..|s| - 1], t) + if s[|s| - 1].timestamp == t then [s[|s| - 1]] else []
  }

  lemma {:induction false} WithTimestampSnoc(s: seq<AspenEntry>, x: AspenEntry, t: string)
    ensures WithTimestamp(s + [x], t) == WithTimestamp(s, t) + if x.timestamp == t then [x] else []
  {
    assert (s + [x])[..|s|] == s;
  }

  lemma {:induction false} InsertKeepsTies(sorted: seq<AspenEntry>, e: AspenEntry, t: string)
    ensures WithTimestamp(InsertByTimestamp(sorted, e), t)
         == WithTimestamp(sorted, t) + if e.timestamp == t then [e] else []
  {
    if sorted == [] || !LexLess(e.timestamp, sorted[|sorted| - 1].timestamp) {
      WithTimestampSnoc(sorted, e, t);
    } else {
      var init := sorted[..|sorted| - 1];
      InsertKeepsTies(init, e, t);
      InsertBeforeLast(init, sorted[|sorted| - 1], e, t);
      assert sorted == init + [sorted[|sorted| - 1]];
    }
  }

  /** The step of `InsertKeepsTies` where `e` goes before the last entry. */
  lemma {:induction false} InsertBeforeLast(init: seq<AspenEntry>, last: AspenEntry, e: AspenEntry, t: string)
    requires LexLess(e.timestamp, last.timestamp)
    requires WithTimestamp(InsertByTimestamp(init, e), t)
          == WithTimestamp(init, t) + if e.timestamp == t then [e] else []
    ensures WithTimestamp(InsertByTimestamp(init + [last], e), t)
         == WithTimestamp(init + [last], t) + if e.timestamp == t then [e] else []
  {
    assert (init + [last])[..|init|] == init;
    WithTimestampSnoc(InsertByTimestamp(init, e), last, t);
    WithTimestampSnoc(init, last, t);
    if e.timestamp == t {
      LexLessIrreflexive(t);
    }
  }

  /** The sort is stable: entries with the same timestamp keep the order
      they had before sorting. */
  lemma {:induction false} SortKeepsTies(s: seq<AspenEntry>, t: string)
    ensures WithTimestamp(SortByTimestamp(s), t) == WithTimestamp(s, t)
  {
    if s != [] {
      SortKeepsTies(s[..|s| - 1], t);
      InsertKeepsTies(SortByTimestamp(s[..|s| - 1]), s[|s| - 1], t);
    }
  }

  /** The entries of every file, file after file. */
  function Collected(files: seq<seq<string>>): seq<AspenEntry> {
    if files == [] then [] else Collected(files[..|files| - 1]) + ReadFile(files[|files| - 1]).entries
  }

  /** Lines reported over all files. */
  function Reported(files: seq<seq<string>>): nat {
    if files == [] then 0 else Reported(files[..|files| - 1]) + ReadFile(files[|files| - 1]).diagnostics
  }

  /** `process_aspenlog`: the files read in turn, then the combined list
      sorted by timestamp. Also returns how many lines were reported. */
  method ProcessAspenlog(files: seq<seq<string>>) returns (merged: seq<AspenEntry>, reported: nat)
    ensures merged == SortByTimestamp(Collected(files)) && reported == Reported(files)
    ensures SortedByTimestamp(merged) && multiset(merged) == multiset(Collected(files))
  {
    if |files| == 0 {
      return [], 0;
    }
    var all: seq<AspenEntry> := [];
    reported := 0;
    for i := 0 to |files|
      invariant all == Collected(files[..i]) && reported == Reported(files[..i])
    {
      var entries, diagnostics := ProcessFile(files[i]);
      all := all + entries;
      reported := reported + diagnostics;
      assert files[..i + 1][..i] == files[..i];
    }
    assert files[..|files|] == files;
    merged := SortByTimestamp(all);
    SortIsSorted(all);
    SortIsPermutation(all);
  }
}
