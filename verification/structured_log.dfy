/** The Wildfly server-log reconstructor: header recognition, record
    classification, the exception text used for clustering, and the
    line-by-line reconstruction with its per-thread map of open records. */
module StructuredLog {
  import opened Wrappers
  import opened Text

  /** REQUEST and RESPONSE are declared by the log model but no code path
      produces them. */
  datatype LogType = Plain | Request | Response | Exception

  /** The named captures of a header line. */
  datatype Header = Header(timestamp: string, level: string, source: string, thread: string, message: string)

  /** The value held by one log entry at some moment. */
  datatype LogRecord = LogRecord(
    lineNumber: nat,
    timestamp: string,
    level: string,
    source: string,
    thread: string,
    message: string,
    kind: LogType,
    lines: seq<string>)

  // ---------------------------------------------------------------------
  // Header recognition

  /** `\d\d\d\d-\d\d-\d\d \d\d:\d\d:\d\d,\d\d\d` */
  const TimestampTemplate: string := "####-##-## ##:##:##,###"

  /** What the header pattern can capture: a timestamp of the fixed shape,
      an upper-case level, a source free of `]` and a thread free of `)`. */
  predicate WellFormedHeader(h: Header) {
    && MatchesTemplate(h.timestamp, TimestampTemplate)
    && |h.level| > 0 && (forall i :: 0 <= i < |h.level| ==> IsUpper(h.level[i]))
    && |h.source| > 0 && ']' !in h.source
    && |h.thread| > 0 && ')' !in h.thread
    && '\n' !in h.message
  }

  /** A header line with single blanks where the pattern allows whitespace. */
  function Render(h: Header): string {
    h.timestamp + (" " + h.level + " " + ("[" + h.source + "] " + ("(" + h.thread + ") " + h.message)))
  }

  /** The header pattern `TIMESTAMP\s+LEVEL\s+[SOURCE]\s+(THREAD) MESSAGE$`
      anchored at the start of the line. Every repeated part of the pattern
      is followed by a character its class excludes, so the greedy scan
      below is the only way the pattern can match. */
  function ParseHeader(line: string): (r: Option<Header>)
    ensures r.Some? ==> WellFormedHeader(r.value)
    ensures r.Some? ==> StartsWith(line, r.value.timestamp)
    ensures r.Some? ==> |r.value.message| < |line| - 23
  {
    if |line| < 23 || !MatchesTemplate(line[..23], TimestampTemplate) then None
    else
      var a := SkipWhile(line, 23, Space);
      var b := SkipWhile(line, a, Upper);
      SkipWhileAll(line, a, Upper);
      var c := SkipWhile(line, b, Space);
      if a == 23 || b == a || c == b then None
      else ParseSourceAt(line, line[..23], line[a..b], c)
  }

  /** `[SOURCE]\s+` from position `c`, then the thread. */
  function ParseSourceAt(line: string, timestamp: string, level: string, c: nat): (r: Option<Header>)
    requires 23 < c <= |line|
    requires MatchesTemplate(timestamp, TimestampTemplate)
    requires |level| > 0 && forall i :: 0 <= i < |level| ==> IsUpper(level[i])
    ensures r.Some? ==> WellFormedHeader(r.value) && r.value.timestamp == timestamp && r.value.level == level
    ensures r.Some? ==> |r.value.message| < |line| - c
  {
    if c == |line| || line[c] != '[' then None
    else
      var d := SkipWhile(line, c + 1, NotBracket);
      SkipWhileAll(line, c + 1, NotBracket);
      if d == c + 1 || d == |line| then None
      else
        var e := SkipWhile(line, d + 1, Space);
        if e == d + 1 then None
        else ParseThreadAt(line, timestamp, level, line[c + 1..d], e)
  }

  /** `(THREAD) ` from position `e`; the rest of the line is the message. */
  function ParseThreadAt(line: string, timestamp: string, level: string, source: string, e: nat): (r: Option<Header>)
    requires 23 < e <= |line|
    requires MatchesTemplate(timestamp, TimestampTemplate)
    requires |level| > 0 && forall i :: 0 <= i < |level| ==> IsUpper(level[i])
    requires |source| > 0 && ']' !in source
    ensures r.Some? ==> WellFormedHeader(r.value)
    ensures r.Some? ==> r.value.timestamp == timestamp && r.value.level == level && r.value.source == source
    ensures r.Some? ==> |r.value.message| < |line| - e
  {
    if e == |line| || line[e] != '(' then None
    else
      var f := SkipWhile(line, e + 1, NotParen);
      SkipWhileAll(line, e + 1, NotParen);
      if f == e + 1 || f + 1 >= |line| || line[f + 1] != ' ' then None
      else MessageAt(line, Header(timestamp, level, source, line[e + 1..f], ""), f + 2)
  }

  /** The message capture `.*$`. */
  function MessageAt(line: string, h: Header, g: nat): (r: Option<Header>)
    requires g <= |line|
    ensures r.Some? ==> r.value == h.(message := r.value.message)
    ensures r.Some? ==> '\n' !in r.value.message && |r.value.message| <= |line| - g
    ensures '\n' !in line[g..] ==> r == Some(h.(message := line[g..]))
  {
    match LineEnd(line[g..])
    case Some(m) => Some(h.(message := m))
    case None => None
  }

  // ---------------------------------------------------------------------
  // The header line laid out piece by piece

  /** `(THREAD) MESSAGE` and what the end anchor lets follow the message. */
  function ThreadPart(h: Header, t: string): string {
    "(" + h.thread + ") " + h.message + t
  }

  /** `[SOURCE]`, the whitespace run after it, then the thread part. */
  function SourcePart(h: Header, w3: string, t: string): string {
    "[" + h.source + "]" + w3 + ThreadPart(h, t)
  }

  /** A line read against the header pattern: the timestamp, a whitespace
      run, the level, a whitespace run, `[SOURCE]`, a whitespace run and
      `(THREAD) MESSAGE`, the message ending the line or followed by one
      final line break. */
  predicate LaidOut(line: string, h: Header, w1: string, w2: string, w3: string, t: string) {
    && Blanks(w1) && Blanks(w2) && Blanks(w3) && LineTail(t)
    && line == h.timestamp + w1 + h.level + w2 + SourcePart(h, w3, t)
  }

  /** The message capture ends the line or stops before one final break. */
  lemma {:induction false} MessagePiece(line: string, h0: Header, g: nat) returns (t: string)
    requires g <= |line| && MessageAt(line, h0, g).Some?
    ensures LineTail(t) && line[g..] == MessageAt(line, h0, g).value.message + t
  {
    var s := line[g..];
    if '\n' in s {
      t := "\n";
      assert s == s[..|s| - 1] + [s[|s| - 1]];
    } else {
      t := "";
      assert s + "" == s;
    }
  }

  lemma {:induction false} ThreadPiece(line: string, timestamp: string, level: string, source: string, e: nat)
    returns (t: string)
    requires 23 < e <= |line|
    requires MatchesTemplate(timestamp, TimestampTemplate)
    requires |level| > 0 && forall i :: 0 <= i < |level| ==> IsUpper(level[i])
    requires |source| > 0 && ']' !in source
    requires ParseThreadAt(line, timestamp, level, source, e).Some?
    ensures LineTail(t) && line[e..] == ThreadPart(ParseThreadAt(line, timestamp, level, source, e).value, t)
  {
    var f := SkipWhile(line, e + 1, NotParen);
    ThreadSteps(line, timestamp, level, source, e, f);
    var h0 := Header(timestamp, level, source, line[e + 1..f], "");
    var h := MessageAt(line, h0, f + 2).value;
    t := MessagePiece(line, h0, f + 2);
    assert line[f] == ')';
    ThreadGlue(line, e, f, h, t);
  }

  /** One stage of the thread scan: past `(THREAD) `, the message runs from
      `f + 2`. */
  lemma {:induction false} ThreadSteps(line: string, timestamp: string, level: string, source: string, e: nat, f: nat)
    requires 23 < e < |line| && line[e] == '('
    requires MatchesTemplate(timestamp, TimestampTemplate)
    requires |level| > 0 && forall i :: 0 <= i < |level| ==> IsUpper(level[i])
    requires |source| > 0 && ']' !in source
    requires f == SkipWhile(line, e + 1, NotParen) && e + 1 < f && f + 1 < |line| && line[f + 1] == ' '
    ensures ParseThreadAt(line, timestamp, level, source, e) == MessageAt(line, Header(timestamp, level, source, line[e + 1..f], ""), f + 2)
  {
  }

  lemma {:induction false} ThreadGlue(line: string, e: nat, f: nat, h: Header, t: string)
    requires e < f && f + 1 < |line| && line[e] == '(' && line[e + 1..f] == h.thread
    requires line[f] == ')' && line[f + 1] == ' ' && line[f + 2..] == h.message + t
    ensures line[e..] == ThreadPart(h, t)
  {
    assert line[e..] == [line[e]] + line[e + 1..f] + [line[f], line[f + 1]] + line[f + 2..];
    assert ThreadPart(h, t) == "(" + h.thread + ") " + (h.message + t);
  }

  /** `line[c..]` is the source part exactly when its pieces sit at their
      offsets. */
  lemma {:induction false} SourceShape(line: string, c: nat, h: Header, w3: string, t: string)
    requires c + |h.source| + |w3| + 2 <= |line|
    ensures var d := c + 1 + |h.source|; var e := d + 1 + |w3|;
            line[c..] == SourcePart(h, w3, t) <==>
            && line[c] == '[' && line[c + 1..d] == h.source && line[d] == ']'
            && line[d + 1..e] == w3 && line[e..] == ThreadPart(h, t)
  {
    var d := c + 1 + |h.source|;
    var e := d + 1 + |w3|;
    var s := line[c..];
    if s == SourcePart(h, w3, t) {
      assert s == "[" + h.source + "]" + w3 + ThreadPart(h, t);
      assert line[c] == s[0];
      assert line[c + 1..d] == s[1..d - c];
      assert line[d] == s[d - c];
      assert line[d + 1..e] == s[d + 1 - c..e - c];
      assert line[e..] == s[e - c..];
    }
    if line[c] == '[' && line[c + 1..d] == h.source && line[d] == ']' && line[d + 1..e] == w3 && line[e..] == ThreadPart(h, t) {
      assert s == [line[c]] + line[c + 1..d] + [line[d]] + line[d + 1..e] + line[e..];
    }
  }

  lemma {:induction false} SourcePiece(line: string, timestamp: string, level: string, c: nat)
    returns (w3: string, t: string)
    requires 23 < c <= |line|
    requires MatchesTemplate(timestamp, TimestampTemplate)
    requires |level| > 0 && forall i :: 0 <= i < |level| ==> IsUpper(level[i])
    requires ParseSourceAt(line, timestamp, level, c).Some?
    ensures Blanks(w3) && LineTail(t)
    ensures line[c..] == SourcePart(ParseSourceAt(line, timestamp, level, c).value, w3, t)
  {
    var d, e := SourceScan(line, timestamp, level, c);
    var h := ParseThreadAt(line, timestamp, level, line[c + 1..d], e).value;
    t := ThreadPiece(line, timestamp, level, line[c + 1..d], e);
    w3 := line[d + 1..e];
    SourceGlue(line, c, d, e, h, t);
  }

  /** Where the source scan of a recognised line stops. */
  lemma {:induction false} SourceScan(line: string, timestamp: string, level: string, c: nat) returns (d: nat, e: nat)
    requires 23 < c <= |line|
    requires MatchesTemplate(timestamp, TimestampTemplate)
    requires |level| > 0 && forall i :: 0 <= i < |level| ==> IsUpper(level[i])
    requires ParseSourceAt(line, timestamp, level, c).Some?
    ensures c + 1 < d < e <= |line| && line[c] == '[' && line[d] == ']' && Blanks(line[d + 1..e])
    ensures |line[c + 1..d]| > 0 && ']' !in line[c + 1..d]
    ensures ParseSourceAt(line, timestamp, level, c) == ParseThreadAt(line, timestamp, level, line[c + 1..d], e)
  {
    d := SkipWhile(line, c + 1, NotBracket);
    e := SkipWhile(line, d + 1, Space);
    SkipWhileAll(line, d + 1, Space);
    SourceSteps(line, timestamp, level, c, d, e);
    BlankRun(line, d + 1, e);
  }

  lemma {:induction false} SourceGlue(line: string, c: nat, d: nat, e: nat, h: Header, t: string)
    requires c < d < e <= |line| && line[c] == '[' && line[c + 1..d] == h.source && line[d] == ']'
    requires line[e..] == ThreadPart(h, t)
    ensures line[c..] == SourcePart(h, line[d + 1..e], t)
  {
    SourceShape(line, c, h, line[d + 1..e], t);
  }

  /** One stage of the header scan: past the timestamp, the level and the
      whitespace around it, the source scan takes over at `c`. */
  lemma {:induction false} HeaderSteps(line: string, a: nat, b: nat, c: nat)
    requires |line| >= 23 && MatchesTemplate(line[..23], TimestampTemplate)
    requires a == SkipWhile(line, 23, Space) && b == SkipWhile(line, a, Upper) && c == SkipWhile(line, b, Space)
    requires 23 < a < b < c
    ensures forall i :: 0 <= i < |line[a..b]| ==> IsUpper(line[a..b][i])
    ensures ParseHeader(line) == ParseSourceAt(line, line[..23], line[a..b], c)
  {
    SkipWhileAll(line, a, Upper);
  }

  /** A recognised header line is laid out as the pattern describes. */
  lemma {:induction false} HeaderPieces(line: string) returns (w1: string, w2: string, w3: string, t: string)
    requires ParseHeader(line).Some?
    ensures LaidOut(line, ParseHeader(line).value, w1, w2, w3, t)
  {
    var a := SkipWhile(line, 23, Space);
    SkipWhileAll(line, 23, Space);
    var b := SkipWhile(line, a, Upper);
    var c := SkipWhile(line, b, Space);
    SkipWhileAll(line, b, Space);
    HeaderSteps(line, a, b, c);
    var h := ParseSourceAt(line, line[..23], line[a..b], c).value;
    w3, t := SourcePiece(line, line[..23], line[a..b], c);
    w1 := line[23..a];
    w2 := line[b..c];
    BlankRun(line, 23, a);
    BlankRun(line, b, c);
    SplitAt(line, 23, a, b, c);
    assert line == h.timestamp + w1 + h.level + w2 + SourcePart(h, w3, t);
  }

  /** Where the pieces of the thread part sit. */
  lemma {:induction false} ThreadFields(line: string, e: nat, h: Header, t: string)
    requires e <= |line| && line[e..] == ThreadPart(h, t)
    ensures var f := e + 1 + |h.thread|;
            && f + 1 < |line| && line[e] == '(' && line[e + 1..f] == h.thread
            && line[f] == ')' && line[f + 1] == ' ' && line[f + 2..] == h.message + t
  {
    var f := e + 1 + |h.thread|;
    var s := line[e..];
    assert s == "(" + h.thread + ") " + (h.message + t);
    assert line[e] == s[0];
    assert line[e + 1..f] == s[1..f - e];
    assert line[f] == s[f - e] && line[f + 1] == s[f + 1 - e];
    assert line[f + 2..] == s[f + 2 - e..];
  }

  lemma {:induction false} ThreadAccepts(line: string, h: Header, e: nat, t: string)
    requires WellFormedHeader(h) && 23 < e <= |line| && LineTail(t)
    requires line[e..] == ThreadPart(h, t)
    ensures ParseThreadAt(line, h.timestamp, h.level, h.source, e) == Some(h)
  {
    var f := e + 1 + |h.thread|;
    ThreadFields(line, e, h, t);
    assert forall k :: e + 1 <= k < f ==> line[k] == line[e + 1..f][k - e - 1];
    SkipWhileIs(line, e + 1, NotParen, f);
    ThreadSteps(line, h.timestamp, h.level, h.source, e, f);
    LineEndTail(h.message, t);
    assert MessageAt(line, Header(h.timestamp, h.level, h.source, h.thread, ""), f + 2) == Some(h);
  }

  /** One stage of the source scan: past `[SOURCE]` and the whitespace
      after it, the thread scan takes over at `e`. */
  lemma {:induction false} SourceSteps(line: string, timestamp: string, level: string, c: nat, d: nat, e: nat)
    requires 23 < c < |line| && line[c] == '['
    requires MatchesTemplate(timestamp, TimestampTemplate)
    requires |level| > 0 && forall i :: 0 <= i < |level| ==> IsUpper(level[i])
    requires d == SkipWhile(line, c + 1, NotBracket) && c + 1 < d < |line|
    requires e == SkipWhile(line, d + 1, Space) && d + 1 < e
    ensures ']' !in line[c + 1..d]
    ensures ParseSourceAt(line, timestamp, level, c) == ParseThreadAt(line, timestamp, level, line[c + 1..d], e)
  {
    SkipWhileAll(line, c + 1, NotBracket);
  }

  lemma {:induction false} SourceAccepts(line: string, h: Header, c: nat, w3: string, t: string)
    requires WellFormedHeader(h) && 23 < c <= |line| && Blanks(w3) && LineTail(t)
    requires line[c..] == SourcePart(h, w3, t)
    ensures ParseSourceAt(line, h.timestamp, h.level, c) == Some(h)
  {
    var d := c + 1 + |h.source|;
    var e := d + 1 + |w3|;
    assert |line[c..]| == |SourcePart(h, w3, t)|;
    SourceShape(line, c, h, w3, t);
    assert forall k :: c + 1 <= k < d ==> line[k] == line[c + 1..d][k - c - 1];
    assert forall k :: d + 1 <= k < e ==> line[k] == line[d + 1..e][k - d - 1];
    assert line[e] == line[e..][0] == '(';
    SkipWhileIs(line, c + 1, NotBracket, d);
    SkipWhileIs(line, d + 1, Space, e);
    SourceSteps(line, h.timestamp, h.level, c, d, e);
    ThreadAccepts(line, h, e, t);
  }

  /** A well-formed header laid out as the pattern describes is recognised,
      each field captured exactly. */
  lemma {:induction false} HeaderAccepts(line: string, h: Header, w1: string, w2: string, w3: string, t: string)
    requires WellFormedHeader(h) && LaidOut(line, h, w1, w2, w3, t)
    ensures ParseHeader(line) == Some(h)
  {
    assert |h.timestamp| == 23;
    var a := 23 + |w1|;
    var b := a + |h.level|;
    var c := b + |w2|;
    var sp := SourcePart(h, w3, t);
    assert line[..23] == h.timestamp;
    assert forall k :: 23 <= k < a ==> line[k] == w1[k - 23];
    assert forall k :: a <= k < b ==> line[k] == h.level[k - a];
    assert forall k :: b <= k < c ==> line[k] == w2[k - b];
    assert line[c..] == sp;
    assert line[c] == sp[0] == '[';
    assert line[a..b] == h.level;
    SkipWhileIs(line, 23, Space, a);
    SkipWhileIs(line, a, Upper, b);
    SkipWhileIs(line, b, Space, c);
    SourceAccepts(line, h, c, w3, t);
  }

  /** The header pattern recognises a line exactly when it is a well-formed
      header laid out with whitespace runs where the pattern has `\s+`,
      and then it captures exactly that header. */
  lemma {:induction false} ParseHeaderLayout(line: string, h: Header)
    ensures ParseHeader(line) == Some(h) <==>
            WellFormedHeader(h) && exists w1, w2, w3, t :: LaidOut(line, h, w1, w2, w3, t)
  {
    if ParseHeader(line) == Some(h) {
      var w1, w2, w3, t := HeaderPieces(line);
    }
    if WellFormedHeader(h) && exists w1, w2, w3, t :: LaidOut(line, h, w1, w2, w3, t) {
      var w1, w2, w3, t :| LaidOut(line, h, w1, w2, w3, t);
      HeaderAccepts(line, h, w1, w2, w3, t);
    }
  }

  /** Every well-formed header is recognised in its rendered form, with
      each field captured back exactly. */
  lemma {:induction false} ParseRender(h: Header)
    requires WellFormedHeader(h)
    ensures ParseHeader(Render(h)) == Some(h)
  {
    var line := Render(h);
    assert line == h.timestamp + " " + h.level + " " + SourcePart(h, " ", "");
    HeaderAccepts(line, h, " ", " ", " ", "");
  }

  // ---------------------------------------------------------------------
  // Classification and exception text

  /** An entry is an exception exactly when its header message contains
      "Exception"; REQUEST and RESPONSE are never assigned. */
  function Classify(message: string): (t: LogType)
    ensures t == Exception <==> Contains(message, "Exception")
    ensures t != Request && t != Response
  {
    if Contains(message, "Exception") then Exception else Plain
  }

  /** The record a header line opens: classified from its message, with no
      continuation lines yet. */
  function NewRecord(h: Header, lineNumber: nat): LogRecord {
    LogRecord(lineNumber, h.timestamp, h.level, h.source, h.thread, h.message, Classify(h.message), [])
  }

  /** The continuation lines that mention a cause, in their original order. */
  function CausedBy(lines: seq<string>): (r: seq<string>)
    ensures |r| <= |lines|
  {
    if lines == [] then []
    else
      var last := lines[|lines| - 1];
      assert lines == lines[..|lines| - 1] + [last];
      CausedBy(lines[..|lines| - 1]) + (if Contains(last, "Caused by") then [last] else [])
  }

  /** Exactly the lines that mention a cause are kept. */
  lemma {:induction false} CausedByMembers(lines: seq<string>)
    ensures forall x :: x in CausedBy(lines) <==> x in lines && Contains(x, "Caused by")
  {
    if lines != [] {
      var init := lines[..|lines| - 1];
      CausedByMembers(init);
      assert lines == init + [lines[|lines| - 1]];
    }
  }

  lemma {:induction false} CausedByConcat(a: seq<string>, b: seq<string>)
    ensures CausedBy(a + b) == CausedBy(a) + CausedBy(b)
  {
    if b != [] {
      var b' := b[..|b| - 1];
      var x := b[|b| - 1];
      var tail := if Contains(x, "Caused by") then [x] else [];
      assert (a + b)[..|a + b| - 1] == a + b';
      assert (a + b)[|a + b| - 1] == x;
      CausedByConcat(a, b');
      calc {
        CausedBy(a + b);
        CausedBy(a + b') + tail;
        CausedBy(a) + CausedBy(b') + tail;
        CausedBy(a) + (CausedBy(b') + tail);
        CausedBy(a) + CausedBy(b);
      }
    } else {
      assert a + b == a;
    }
  }

  /** A line without "Caused by" is never part of the exception text, and
      one with it is kept. */
  lemma {:induction false} CausedByAppend(lines: seq<string>, line: string)
    ensures CausedBy(lines + [line]) == CausedBy(lines) + (if Contains(line, "Caused by") then [line] else [])
  {
    assert (lines + [line])[..|lines|] == lines;
  }

  /** Each cause on its own line, introduced by a tab. */
  function JoinCauses(causes: seq<string>): string {
    if causes == [] then "" else JoinCauses(causes[..|causes| - 1]) + "\n\t" + causes[|causes| - 1]
  }

  lemma {:induction false} JoinCausesConcat(a: seq<string>, b: seq<string>)
    ensures JoinCauses(a + b) == JoinCauses(a) + JoinCauses(b)
  {
    if b != [] {
      var b' := b[..|b| - 1];
      var x := b[|b| - 1];
      assert (a + b)[..|a + b| - 1] == a + b';
      assert (a + b)[|a + b| - 1] == x;
      JoinCausesConcat(a, b');
      calc {
        JoinCauses(a + b);
        JoinCauses(a + b') + "\n\t" + x;
        JoinCauses(a) + JoinCauses(b') + "\n\t" + x;
        JoinCauses(a) + (JoinCauses(b') + "\n\t" + x);
        JoinCauses(a) + JoinCauses(b);
      }
    } else {
      assert a + b == a;
    }
  }

  /** The clustering key of a record: empty unless it is an exception. */
  function ExceptionText(r: LogRecord): string {
    if r.kind != Exception then "" else r.message + JoinCauses(CausedBy(r.lines))
  }

  /** For a record classified from its own message, the text is empty
      exactly when the record is not an exception, and it always begins
      with the message. */
  lemma {:induction false} ExceptionTextShape(r: LogRecord)
    requires r.kind == Classify(r.message)
    ensures ExceptionText(r) != "" <==> r.kind == Exception
    ensures r.kind == Exception ==> StartsWith(ExceptionText(r), r.message)
  {
    if r.kind == Exception {
      assert |r.message| > 0;
      assert ExceptionText(r)[..|r.message|] == r.message;
    }
  }

  lemma {:induction false} ExceptionTextAppendCause(r: LogRecord, line: string)
    requires r.kind == Exception && Contains(line, "Caused by")
    ensures ExceptionText(AppendLine(r, line)) == ExceptionText(r) + "\n\t" + line
  {
    CausedByAppend(r.lines, line);
    JoinCausesConcat(CausedBy(r.lines), [line]);
    assert JoinCauses([line]) == "\n\t" + line by { assert [line][..0] == []; }
  }

  lemma {:induction false} ExceptionTextAppendOther(r: LogRecord, line: string)
    requires !(r.kind == Exception && Contains(line, "Caused by"))
    ensures ExceptionText(AppendLine(r, line)) == ExceptionText(r)
  {
    CausedByAppend(r.lines, line);
    if r.kind == Exception {
      assert CausedBy(r.lines) + [] == CausedBy(r.lines);
    }
  }

  /** Appending a continuation line extends the exception text only when
      the line mentions a cause. */
  lemma {:induction false} ExceptionTextAppend(r: LogRecord, line: string)
    ensures ExceptionText(AppendLine(r, line)) ==
            if r.kind == Exception && Contains(line, "Caused by")
            then ExceptionText(r) + "\n\t" + line
            else ExceptionText(r)
  {
    if r.kind == Exception && Contains(line, "Caused by") {
      ExceptionTextAppendCause(r, line);
    } else {
      ExceptionTextAppendOther(r, line);
    }
  }

  // ---------------------------------------------------------------------
  // Reconstruction on values

  function AppendLine(r: LogRecord, line: string): LogRecord {
    r.(lines := r.lines + [line])
  }

  /** The index of the record most recently opened by a thread: the record
      the thread map holds for it. */
  function LastIndexWithThread(recs: seq<LogRecord>, thread: string): (r: Option<nat>)
    ensures r.Some? ==> r.value < |recs| && recs[r.value].thread == thread
  {
    if recs == [] then None
    else if recs[|recs| - 1].thread == thread then Some(|recs| - 1)
    else LastIndexWithThread(recs[..|recs| - 1], thread)
  }

  /** No later record has the thread, and none at all when it has none. */
  lemma {:induction false} LastIndexWithThreadIsLast(recs: seq<LogRecord>, thread: string)
    ensures var r := LastIndexWithThread(recs, thread);
            && (r.Some? ==> forall j :: r.value < j < |recs| ==> recs[j].thread != thread)
            && (r.None? ==> forall j :: 0 <= j < |recs| ==> recs[j].thread != thread)
  {
    if recs != [] && recs[|recs| - 1].thread != thread {
      LastIndexWithThreadIsLast(recs[..|recs| - 1], thread);
    }
  }

  /** A line together with what the header pattern made of it. */
  datatype Scanned = Scanned(text: string, header: Option<Header>)

  function ScanLine(line: string): Scanned {
    Scanned(line, ParseHeader(line))
  }

  /** One line handed to process_line, on the value view of the list. */
  function Step(recs: seq<LogRecord>, lineNumber: nat, line: string): seq<LogRecord> {
    StepWith(recs, lineNumber, ScanLine(line))
  }

  /** The effect of a line once the header pattern has been tried on it:
      a tab-led header message for a thread with an open record joins that
      record, any other header opens a new record, and any other line joins
      the last record (or is dropped when there is none). */
  function StepWith(recs: seq<LogRecord>, lineNumber: nat, s: Scanned): seq<LogRecord> {
    match s.header
    case Some(h) =>
      var open := LastIndexWithThread(recs, h.thread);
      if StartsWith(h.message, "\t") && open.Some?
      then recs[open.value := AppendLine(recs[open.value], h.message)]
      else recs + [NewRecord(h, lineNumber)]
    case None =>
      if |recs| > 0 then recs[|recs| - 1 := AppendLine(recs[|recs| - 1], s.text)] else recs
  }

  /** process_line applied to each scanned line in turn, the i-th (from 0)
      numbered i + 1. */
  function Replay(scan: seq<Scanned>): seq<LogRecord> {
    if scan == [] then []
    else StepWith(Replay(scan[..|scan| - 1]), |scan|, scan[|scan| - 1])
  }

  lemma {:induction false} ReplaySnoc(scan: seq<Scanned>, i: nat)
    requires i < |scan|
    ensures Replay(scan[..i + 1]) == StepWith(Replay(scan[..i]), i + 1, scan[i])
  {
    assert scan[..i + 1][..i] == scan[..i];
  }

  function ScanAll(lines: seq<string>): (r: seq<Scanned>)
    ensures |r| == |lines| && forall i :: 0 <= i < |lines| ==> r[i] == ScanLine(lines[i])
  {
    seq(|lines|, i requires 0 <= i < |lines| => ScanLine(lines[i]))
  }

  /** process_file on the value view: each line right-stripped, then
      handed to process_line with its 1-based number. */
  function Reconstruct(lines: seq<string>): seq<LogRecord> {
    Replay(ScanAll(StripAll(lines)))
  }

  /** None of the lines is a header line. */
  predicate NoHeader(scan: seq<Scanned>) {
    scan == [] || (scan[|scan| - 1].header.None? && NoHeader(scan[..|scan| - 1]))
  }

  lemma {:induction false} NoHeaderMeans(scan: seq<Scanned>)
    ensures NoHeader(scan) <==> forall i :: 0 <= i < |scan| ==> scan[i].header.None?
  {
    if scan != [] {
      var init := scan[..|scan| - 1];
      NoHeaderMeans(init);
      assert forall i :: 0 <= i < |init| ==> init[i] == scan[i];
    }
  }

  lemma {:induction false} NoHeaderFront(scan: seq<Scanned>)
    requires scan != []
    ensures NoHeader(scan) <==> scan[0].header.None? && NoHeader(scan[1..])
  {
    if |scan| > 1 {
      var init := scan[..|scan| - 1];
      NoHeaderFront(init);
      assert init[1..] == scan[1..][..|scan| - 2];
    } else {
      assert scan[1..] == [];
    }
  }

  /** Lines read before the first header line: they have no record to join. */
  function LeadingNonHeaders(scan: seq<Scanned>): nat {
    if scan == [] || scan[0].header.Some? then 0 else 1 + LeadingNonHeaders(scan[1..])
  }

  function TotalLines(recs: seq<LogRecord>): nat {
    if recs == [] then 0 else TotalLines(recs[..|recs| - 1]) + |recs[|recs| - 1].lines|
  }

  lemma {:induction false} SameThreadsSameLast(a: seq<LogRecord>, b: seq<LogRecord>, t: string)
    requires |a| == |b|
    requires forall i :: 0 <= i < |a| ==> a[i].thread == b[i].thread
    ensures LastIndexWithThread(a, t) == LastIndexWithThread(b, t)
  {
    if a != [] {
      SameThreadsSameLast(a[..|a| - 1], b[..|b| - 1], t);
    }
  }

  lemma {:induction false} TotalLinesAppendAt(recs: seq<LogRecord>, k: nat, line: string)
    requires k < |recs|
    ensures TotalLines(recs[k := AppendLine(recs[k], line)]) == TotalLines(recs) + 1
  {
    var recs' := recs[k := AppendLine(recs[k], line)];
    if k < |recs| - 1 {
      assert recs'[..|recs'| - 1] == recs[..|recs| - 1][k := AppendLine(recs[k], line)];
      TotalLinesAppendAt(recs[..|recs| - 1], k, line);
    } else {
      assert recs'[..|recs'| - 1] == recs[..|recs| - 1];
    }
  }

  /** A header whose message starts with a tab, for a thread that already
      has an open record, adds only that message to the thread's record:
      no record is added, no other record changes, and every thread keeps
      its open record. */
  lemma {:induction false} StepTabContinuation(recs: seq<LogRecord>, lineNumber: nat, text: string, h: Header)
    requires StartsWith(h.message, "\t") && LastIndexWithThread(recs, h.thread).Some?
    ensures var k := LastIndexWithThread(recs, h.thread).value;
            var recs' := StepWith(recs, lineNumber, Scanned(text, Some(h)));
            && |recs'| == |recs|
            && recs'[k] == AppendLine(recs[k], h.message)
            && (forall i :: 0 <= i < |recs| && i != k ==> recs'[i] == recs[i])
            && (forall t :: LastIndexWithThread(recs', t) == LastIndexWithThread(recs, t))
  {
    var recs' := StepWith(recs, lineNumber, Scanned(text, Some(h)));
    forall t ensures LastIndexWithThread(recs', t) == LastIndexWithThread(recs, t) {
      SameThreadsSameLast(recs', recs, t);
    }
  }

  /** Every other header line opens exactly one new record at the end of
      the list, and that record becomes its thread's open record. */
  lemma {:induction false} StepNewRecord(recs: seq<LogRecord>, lineNumber: nat, text: string, h: Header)
    requires !(StartsWith(h.message, "\t") && LastIndexWithThread(recs, h.thread).Some?)
    ensures var recs' := StepWith(recs, lineNumber, Scanned(text, Some(h)));
            && recs' == recs + [NewRecord(h, lineNumber)]
            && LastIndexWithThread(recs', h.thread) == Some(|recs|)
            && (forall t :: t != h.thread ==> LastIndexWithThread(recs', t) == LastIndexWithThread(recs, t))
  {
    var recs' := StepWith(recs, lineNumber, Scanned(text, Some(h)));
    assert recs'[..|recs'| - 1] == recs;
  }

  /** A tab-led header message for a thread with an open record joins
      that record. */
  lemma {:induction false} StepJoins(recs: seq<LogRecord>, lineNumber: nat, line: string, h: Header)
    requires ParseHeader(line) == Some(h)
    requires StartsWith(h.message, "\t") && LastIndexWithThread(recs, h.thread).Some?
    ensures var k := LastIndexWithThread(recs, h.thread).value;
            Step(recs, lineNumber, line) == recs[k := AppendLine(recs[k], h.message)]
  {
  }

  /** A line that is not a header joins the last record of the list,
      whatever its thread; before the first record it is dropped. */
  lemma {:induction false} StepContinuation(recs: seq<LogRecord>, lineNumber: nat, text: string)
    ensures var recs' := StepWith(recs, lineNumber, Scanned(text, None));
            && |recs'| == |recs|
            && (|recs| == 0 ==> recs' == recs)
            && (|recs| > 0 ==> recs'[|recs| - 1] == AppendLine(recs[|recs| - 1], text))
            && (forall i :: 0 <= i < |recs| - 1 ==> recs'[i] == recs[i])
  {
  }

  /** Records only ever grow: existing records keep their header fields and
      their earlier lines, and new records go at the end. */
  lemma {:induction false} StepOnlyAppends(recs: seq<LogRecord>, lineNumber: nat, s: Scanned)
    ensures var recs' := StepWith(recs, lineNumber, s);
            && |recs| <= |recs'| <= |recs| + 1
            && (|recs'| == |recs| + 1 <==> s.header.Some? && recs' == recs + [NewRecord(s.header.value, lineNumber)])
            && forall i :: 0 <= i < |recs| ==>
                 && recs'[i].(lines := []) == recs[i].(lines := [])
                 && recs[i].lines <= recs'[i].lines
  {
  }

  /** The record was opened by the header on its line: its number points
      at a header line whose captures are the record's header fields. */
  predicate OpenedBy(scan: seq<Scanned>, r: LogRecord) {
    && 1 <= r.lineNumber <= |scan|
    && var h := scan[r.lineNumber - 1].header;
       h.Some? && NewRecord(h.value, r.lineNumber) == r.(lines := [])
  }

  predicate InLineOrder(recs: seq<LogRecord>) {
    forall i, j :: 0 <= i < j < |recs| ==> recs[i].lineNumber < recs[j].lineNumber
  }

  predicate AllOpenedBy(scan: seq<Scanned>, recs: seq<LogRecord>) {
    forall i :: 0 <= i < |recs| ==> OpenedBy(scan, recs[i])
  }

  /** Records appear in line order, their line numbers strictly
      increasing, and each was opened by the header on its line. */
  lemma {:induction false} ReplayLineNumbers(scan: seq<Scanned>)
    ensures InLineOrder(Replay(scan)) && AllOpenedBy(scan, Replay(scan))
  {
    if scan != [] {
      var init := scan[..|scan| - 1];
      var last := scan[|scan| - 1];
      ReplayLineNumbers(init);
      var prev := Replay(init);
      StepOnlyAppends(prev, |scan|, last);
      var recs := Replay(scan);
      assert recs == StepWith(prev, |scan|, last);
      forall i | 0 <= i < |prev| ensures OpenedBy(scan, recs[i]) && recs[i].lineNumber <= |init| {
        assert OpenedBy(init, prev[i]);
        assert scan[prev[i].lineNumber - 1] == init[prev[i].lineNumber - 1];
      }
    }
  }

  lemma {:induction false} ReplayEmptyIffNoHeader(scan: seq<Scanned>)
    ensures |Replay(scan)| == 0 <==> NoHeader(scan)
  {
    if scan != [] {
      var init := scan[..|scan| - 1];
      var last := scan[|scan| - 1];
      ReplayEmptyIffNoHeader(init);
      var prev := Replay(init);
      StepOnlyAppends(prev, |scan|, last);
      var recs := Replay(scan);
      assert recs == StepWith(prev, |scan|, last);
      if last.header.Some? {
        assert |recs| > 0;
      } else if |prev| == 0 {
        assert |recs| == 0;
      }
    }
  }

  lemma {:induction false} LeadingNonHeadersSnoc(scan: seq<Scanned>, s: Scanned)
    ensures LeadingNonHeaders(scan + [s]) ==
            LeadingNonHeaders(scan) + (if NoHeader(scan + [s]) then 1 else 0)
  {
    var all := scan + [s];
    assert all[..|scan|] == scan;
    if scan != [] {
      assert all[1..] == scan[1..] + [s];
      LeadingNonHeadersSnoc(scan[1..], s);
      NoHeaderFront(all);
    } else {
      assert NoHeader(all) <==> s.header.None?;
    }
  }

  /** No line is lost: every line read opens a record, joins one, or is
      one of the lines before the first header, which are dropped. */
  lemma {:induction false} ReplayAccountsForEveryLine(scan: seq<Scanned>)
    ensures |scan| == |Replay(scan)| + TotalLines(Replay(scan)) + LeadingNonHeaders(scan)
  {
    if scan != [] {
      var init := scan[..|scan| - 1];
      var last := scan[|scan| - 1];
      ReplayAccountsForEveryLine(init);
      ReplayEmptyIffNoHeader(init);
      assert scan == init + [last];
      LeadingNonHeadersSnoc(init, last);
      var prev := Replay(init);
      var recs := Replay(scan);
      assert recs == StepWith(prev, |scan|, last);
      match last.header
      case Some(h) =>
        var open := LastIndexWithThread(prev, h.thread);
        if StartsWith(h.message, "\t") && open.Some? {
          TotalLinesAppendAt(prev, open.value, h.message);
        } else {
          StepNewRecord(prev, |scan|, last.text, h);
          assert recs[..|prev|] == prev;
        }
      case None =>
        if |prev| > 0 {
          TotalLinesAppendAt(prev, |prev| - 1, last.text);
        }
    }
  }

  // ---------------------------------------------------------------------
  // The objects

  /** One reconstructed log entry; its header fields are fixed when it is
      built and only its continuation lines and its concurrency stamp
      change afterwards. */
  class LogEntry {
    const lineNumber: nat
    const timestamp: string
    const level: string
    const source: string
    const thread: string
    const message: string
    const kind: LogType
    var lines: seq<string>
    /** Written by the tool-marking pass; 0 until it runs. */
    var concurrentJobs: int

    function Value(): LogRecord
      reads this
    {
      LogRecord(lineNumber, timestamp, level, source, thread, message, kind, lines)
    }

    constructor (h: Header, lineNumber: nat)
      ensures Value() == NewRecord(h, lineNumber) && concurrentJobs == 0
    {
      this.lineNumber := lineNumber;
      timestamp := h.timestamp;
      level := h.level;
      source := h.source;
      thread := h.thread;
      message := h.message;
      kind := Classify(h.message);
      lines := [];
      concurrentJobs := 0;
    }

    /** The continuation lines naming a cause. */
    function CausedByLines(): (r: seq<string>)
      reads this
      ensures r == CausedBy(lines)
      ensures forall x :: x in r <==> x in lines && Contains(x, "Caused by")
    {
      CausedByMembers(lines);
      if |lines| == 0 then [] else CausedBy(lines)
    }

    method GetException() returns (text: string)
      ensures text == ExceptionText(Value())
    {
      if kind != Exception {
        return "";
      }
      text := message;
      var causes := CausedByLines();
      for i := 0 to |causes|
        invariant text == message + JoinCauses(causes[..i])
      {
        assert causes[..i + 1][..i] == causes[..i];
        text := text + "\n\t" + causes[i];
      }
      assert causes[..|causes|] == causes;
    }

    method AddLine(line: string)
      modifies this`lines
      ensures lines == old(lines) + [line]
    {
      lines := lines + [line];
    }
  }

  ghost function Values(entries: seq<LogEntry>): (r: seq<LogRecord>)
    reads entries
    ensures |r| == |entries|
    ensures forall i :: 0 <= i < |entries| ==> r[i] == entries[i].Value()
  {
    seq(|entries|, i reads entries requires 0 <= i < |entries| => entries[i].Value())
  }

  lemma {:induction false} ValuesSnoc(entries: seq<LogEntry>, e: LogEntry)
    ensures Values(entries + [e]) == Values(entries) + [e.Value()]
  {
  }

  /** `position` numbers the entries, so no entry appears twice, and the
      thread map holds, for each thread that has opened one of the records
      `recs` of the entries, its most recent entry. */
  ghost predicate Tracks(entries: seq<LogEntry>, position: map<LogEntry, nat>, threads: map<string, LogEntry>, recs: seq<LogRecord>)
    requires |recs| == |entries|
  {
    && (forall i :: 0 <= i < |entries| ==> entries[i] in position && position[entries[i]] == i)
    && (forall t :: t in threads <==> LastIndexWithThread(recs, t).Some?)
    && (forall t :: t in threads ==> threads[t] == entries[LastIndexWithThread(recs, t).value])
  }

  /** The list of entries and the thread map that process_line updates. */
  class Reconstruction {
    var entries: seq<LogEntry>
    var threads: map<string, LogEntry>
    /** Where each entry sits in the list. */
    ghost var position: map<LogEntry, nat>

    ghost function Records(): seq<LogRecord>
      reads this, entries
    {
      Values(entries)
    }

    ghost predicate Valid()
      reads this, entries
    {
      Tracks(entries, position, threads, Records())
    }

    constructor ()
      ensures Valid() && entries == [] && threads == map[]
    {
      entries := [];
      threads := map[];
      position := map[];
    }

    method ProcessLine(lineNumber: nat, line: string)
      requires Valid()
      modifies this, entries
      ensures Valid()
      ensures Records() == Step(old(Records()), lineNumber, line)
      ensures forall e :: e in entries ==> e in old(entries) || fresh(e)
    {
      var m := ParseHeader(line);
      if m.Some? {
        var log := new LogEntry(m.value, lineNumber);
        Place(log, m.value, lineNumber, line);
      } else if |entries| > 0 {
        AppendTo(entries[|entries| - 1], |entries| - 1, line);
      }
    }

    /** A header line's new entry: a tab-led message for a thread with an
        entry joins that entry, anything else is appended and becomes its
        thread's entry. */
    method Place(log: LogEntry, ghost h: Header, ghost lineNumber: nat, ghost line: string)
      requires Valid() && log !in entries
      requires ParseHeader(line) == Some(h) && log.Value() == NewRecord(h, lineNumber)
      modifies this, entries
      ensures Valid()
      ensures Records() == Step(old(Records()), lineNumber, line)
      ensures entries == old(entries) || entries == old(entries) + [log]
    {
      ghost var recs := Records();
      if StartsWith(log.message, "\t") && log.thread in threads {
        ghost var k := LastIndexWithThread(recs, log.thread).value;
        StepJoins(recs, lineNumber, line, h);
        AppendTo(threads[log.thread], k, log.message);
      } else {
        StepNewRecord(recs, lineNumber, line, h);
        Open(log);
      }
    }

    /** add_line on the k-th entry: its record gains the line, and the
        thread map still holds each thread's most recent entry. */
    method AppendTo(e: LogEntry, ghost k: nat, text: string)
      requires Valid() && k < |entries| && entries[k] == e
      modifies e
      ensures Valid() && entries == old(entries) && threads == old(threads)
      ensures Records() == old(Records())[k := AppendLine(old(Records())[k], text)]
    {
      ghost var recs := Records();
      e.AddLine(text);
      assert forall i :: 0 <= i < |entries| && i != k ==> position[entries[i]] != position[entries[k]];
      assert Records() == recs[k := AppendLine(recs[k], text)];
      forall t ensures LastIndexWithThread(Records(), t) == LastIndexWithThread(recs, t) {
        SameThreadsSameLast(Records(), recs, t);
      }
    }

    /** A new entry goes at the end of the list and becomes its thread's
        most recent entry. */
    method Open(log: LogEntry)
      requires Valid() && log !in entries
      modifies this
      ensures Valid()
      ensures entries == old(entries) + [log] && threads == old(threads)[log.thread := log]
      ensures Records() == old(Records()) + [log.Value()]
    {
      ghost var recs := Records();
      ghost var before := entries;
      entries := entries + [log];
      threads := threads[log.thread := log];
      position := position[log := |before|];
      ValuesSnoc(before, log);
      assert Values(before) == recs;
      assert Records()[..|recs|] == recs;
    }
  }

  /** Reads a whole file: the entries it returns hold exactly the records
      the value-level reconstruction describes. */
  method ProcessFile(lines: seq<string>) returns (entries: seq<LogEntry>)
    ensures Values(entries) == Reconstruct(lines)
    ensures forall e :: e in entries ==> fresh(e)
  {
    var r := new Reconstruction();
    ghost var scan := ScanAll(StripAll(lines));
    for i := 0 to |lines|
      invariant fresh(r) && r.Valid()
      invariant fresh(set e | e in r.entries)
      invariant r.Records() == Replay(scan[..i])
    {
      var line := RStrip(lines[i]);
      ReplaySnoc(scan, i);
      r.ProcessLine(i + 1, line);
    }
    assert scan[..|lines|] == scan;
    entries := r.entries;
  }
}
