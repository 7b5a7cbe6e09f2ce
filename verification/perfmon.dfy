/** Perfmon4j sample blocks in a server log. A header line written by the
    perfmon text appender opens a block; the lines after it give the
    counter name, the sample range and one line per counter value, and an
    asterisk line closes the block once it holds values. */
module Perfmon {
  import opened Wrappers
  import opened Text

  // ---------------------------------------------------------------------
  // The header line

  /** Date, one space, and the time up to the comma before its fraction. */
  const HeaderStart := "####-##-## ##:##:##,"

  /** `[org.perfmon4j.TextAppender] (PerfMon.utilityTimer)`, whose dots are
      regex dots: any character but a line break. */
  const AppenderTemplate := "[org?perfmon4j?TextAppender] (PerfMon?utilityTimer)"

  predicate AppenderAt(s: string, i: nat) {
    i + |AppenderTemplate| <= |s| && MatchesTemplate(s[i..i + |AppenderTemplate|], AppenderTemplate)
  }

  /** `\s+` and the appender. */
  predicate SpacesThenAppender(s: string) {
    var q := SkipWhile(s, 0, Space);
    q > 0 && AppenderAt(s, q)
  }

  /** ` *\w+\s+` and the appender: the level word between the time and the
      appender. */
  predicate LevelThenAppender(s: string) {
    var p := SkipWhile(s, 0, Blank);
    var q := SkipWhile(s, p, Word);
    q > p && SpacesThenAppender(s[q..])
  }

  /** How many of the digits after the comma `\d+` keeps. Greedy, it takes
      them all; when the rest then fails to match, the regex gives the last
      digit back to `\w+`, which succeeds exactly when the appender follows
      after blanks with no level word in between. */
  function FractionDigits(s: string): (r: Option<nat>)
    ensures r.Some? ==> 0 < r.value <= |s| && AllDigits(s[..r.value])
  {
    var n := SkipWhile(s, 0, Digit);
    SkipWhileAll(s, 0, Digit);
    assert AllDigits(s[..n]);
    if n == 0 then None
    else if LevelThenAppender(s[n..]) then Some(n)
    else if n >= 2 && SpacesThenAppender(s[n..]) then Some(n - 1)
    else None
  }

  /** `perfmon_logline_pattern.match`: the date and the time groups. */
  function ParseHeader(line: string): (r: Option<(string, string)>)
    ensures r.Some? ==> StartsWith(line, r.value.0 + " " + r.value.1)
    ensures r.Some? ==> MatchesTemplate(r.value.0, "####-##-##")
    ensures r.Some? ==> |r.value.1| > 9 && MatchesTemplate(r.value.1[..9], "##:##:##,") && AllDigits(r.value.1[9..])
  {
    if |line| < |HeaderStart| || !MatchesTemplate(line[..|HeaderStart|], HeaderStart) then None
    else
      match FractionDigits(line[|HeaderStart|..])
      case None => None
      case Some(k) =>
        var date, time := line[..10], line[11..|HeaderStart| + k];
        HeaderFields(line, k);
        Some((date, time))
  }

  lemma {:induction false} HeaderFields(line: string, k: nat)
    requires |HeaderStart| + k <= |line| && MatchesTemplate(line[..|HeaderStart|], HeaderStart)
    requires k > 0 && AllDigits(line[|HeaderStart|..][..k])
    ensures var date, time := line[..10], line[11..|HeaderStart| + k];
            && StartsWith(line, date + " " + time)
            && MatchesTemplate(date, "####-##-##")
            && |time| > 9 && MatchesTemplate(time[..9], "##:##:##,") && AllDigits(time[9..])
  {
    var date, time := line[..10], line[11..|HeaderStart| + k];
    var head := line[..|HeaderStart|];
    MatchesTemplateSlice(head, HeaderStart, 0, 10);
    MatchesTemplateSlice(head, HeaderStart, 11, 20);
    assert HeaderStart[..10] == "####-##-##";
    assert HeaderStart[11..20] == "##:##:##,";
    assert head[0..10] == date && head[11..20] == time[..9];
    assert time[9..] == line[|HeaderStart|..][..k];
    assert line[10] == head[10] == ' ';
    assert line[..|date + " " + time|] == date + " " + time;
  }

  /** A header with a level word keeps every digit of the time. */
  lemma {:induction false} FractionWithLevel(digits: string, rest: string)
    requires |digits| > 0 && AllDigits(digits)
    requires rest == [] || !IsDigit(rest[0])
    requires LevelThenAppender(rest)
    ensures FractionDigits(digits + rest) == Some(|digits|)
  {
    var s := digits + rest;
    SkipWhileIs(s, 0, Digit, |digits|);
    assert s[|digits|..] == rest;
  }

  /** Without a level word the regex still matches, and the last digit of
      the time is taken for the level. */
  lemma {:induction false} FractionWithoutLevel(digits: string, rest: string)
    requires |digits| >= 2 && AllDigits(digits)
    requires rest == [] || !IsDigit(rest[0])
    requires !LevelThenAppender(rest) && SpacesThenAppender(rest)
    ensures FractionDigits(digits + rest) == Some(|digits| - 1)
  {
    var s := digits + rest;
    SkipWhileIs(s, 0, Digit, |digits|);
    assert s[|digits|..] == rest;
  }

  /** `log_time.replace(',', '.')` */
  function LogTime(raw: string): (t: string)
    ensures |t| == |raw| && ',' !in t
  {
    ReplaceChar(raw, ',', '.')
  }

  // ---------------------------------------------------------------------
  // The lines inside a block

  /** Eighty asterisks, before and after each block. */
  const Separator := "********************************************************************************"

  /** `sample_range_pattern.match`: `hh:mm:ss:mmm -> hh:mm:ss:mmm` at the
      start of the line; the milliseconds are not kept. */
  const RangeTemplate := "##:##:##:### -> ##:##:##:###"

  function ParseSampleRange(line: string): (r: Option<(string, string)>)
    ensures r.Some? <==> |line| >= |RangeTemplate| && MatchesTemplate(line[..|RangeTemplate|], RangeTemplate)
    ensures r.Some? ==> r.value == (line[..8], line[16..24])
  {
    if |line| >= |RangeTemplate| && MatchesTemplate(line[..|RangeTemplate|], RangeTemplate)
    then Some((line[..8], line[16..24]))
    else None
  }

  /** `[0-9.-]` */
  datatype Counter = Counter(name: string, value: string, extra: string)

  /** `counter_value_pattern.match` followed by `rstrip('.')` of the name:
      after a leading space, the name runs up to the LAST ". " (the greedy
      `.+` backs off only as far as it must), the value is the run of
      `[0-9.-]` after it, and the extra is the rest of the line. */
  function ParseCounter(line: string): (r: Option<Counter>)
  {
    match LineEnd(line)
    case None => None
    case Some(body) => CounterIn(body)
  }

  /** The counter pattern on a line without its line break. */
  function CounterIn(body: string): Option<Counter> {
    if |body| < 4 || body[0] != ' ' then None
    else
      match LastBetween(body, ". ", 2, |body| - 2)
      case None => None
      case Some(j) =>
        var v := SkipWhile(body, j + 2, Numeral);
        Some(Counter(RStripChar(body[1..j], '.'), body[j + 2..v], body[v..]))
  }

  /** The counter line `' ' + raw + ". " + numeral + extra` with no ". " in
      the numeral and extra yields `raw` (less trailing dots), `numeral`
      and `extra`. */
  lemma {:induction false} CounterFields(raw: string, numeral: string, extra: string)
    requires |raw| > 0 && '\n' !in raw && '\n' !in extra
    requires forall k :: 0 <= k < |numeral| ==> IsNumeralChar(numeral[k])
    requires extra == [] || !IsNumeralChar(extra[0])
    requires !Contains(numeral + extra, ". ")
    ensures ParseCounter(" " + raw + ". " + numeral + extra)
            == Some(Counter(RStripChar(raw, '.'), numeral, extra))
  {
    var body := " " + raw + ". " + numeral + extra;
    CounterLineFree(raw, numeral, extra);
    CounterSeparatorLast(raw, numeral, extra);
    CounterValueSpan(raw, numeral, extra);
    CounterAt(body, |raw| + 1);
  }

  lemma {:induction false} CounterAt(body: string, j: nat)
    requires '\n' !in body && |body| >= 4 && body[0] == ' '
    requires 2 <= j && LastBetween(body, ". ", 2, |body| - 2) == Some(j)
    ensures var v := SkipWhile(body, j + 2, Numeral);
            ParseCounter(body) == Some(Counter(RStripChar(body[1..j], '.'), body[j + 2..v], body[v..]))
  {
  }

  lemma {:induction false} CounterLineFree(raw: string, numeral: string, extra: string)
    requires '\n' !in raw && '\n' !in extra
    requires forall k :: 0 <= k < |numeral| ==> IsNumeralChar(numeral[k])
    ensures '\n' !in " " + raw + ". " + numeral + extra
  {
    assert '\n' !in numeral by {
      forall k | 0 <= k < |numeral| ensures numeral[k] != '\n' {
        assert IsNumeralChar(numeral[k]);
      }
    }
    var body := " " + raw + ". " + numeral + extra;
    forall k | 0 <= k < |body| ensures body[k] != '\n' {
      if k == 0 {
      } else if k <= |raw| {
        assert body[k] == raw[k - 1];
      } else if k <= |raw| + 2 {
      } else if k < |raw| + 3 + |numeral| {
        assert body[k] == numeral[k - |raw| - 3];
      } else {
        assert body[k] == extra[k - |raw| - 3 - |numeral|];
      }
    }
  }

  /** The separator after `raw` is the last ". " of the line. */
  lemma {:induction false} CounterSeparatorLast(raw: string, numeral: string, extra: string)
    requires |raw| > 0 && !Contains(numeral + extra, ". ")
    ensures var body := " " + raw + ". " + numeral + extra;
            LastBetween(body, ". ", 2, |body| - 2) == Some(|raw| + 1)
  {
    var tail := numeral + extra;
    var body := " " + raw + ". " + numeral + extra;
    var j := |raw| + 1;
    assert body[j..j + 2] == ". ";
    assert OccursAt(body, ". ", j);
    forall k | j < k <= |body| - 2 ensures !OccursAt(body, ". ", k) {
      if k == j + 1 {
        assert body[k..k + 2][0] == body[k] == ' ';
      } else {
        assert body[k..k + 2] == tail[k - j - 2..k - j];
        assert !OccursAt(tail, ". ", k - j - 2);
      }
    }
    var r := LastBetween(body, ". ", 2, |body| - 2);
    assert r.Some?;
    assert r.value == j;
  }

  /** Before the separator is `raw`; after it the numeral run is
      `numeral` and the rest is `extra`. */
  lemma {:induction false} CounterValueSpan(raw: string, numeral: string, extra: string)
    requires forall k :: 0 <= k < |numeral| ==> IsNumeralChar(numeral[k])
    requires extra == [] || !IsNumeralChar(extra[0])
    ensures var body := " " + raw + ". " + numeral + extra;
            var h := |raw| + 3;
            var v := SkipWhile(body, h, Numeral);
            && body[1..|raw| + 1] == raw
            && v == h + |numeral| && body[h..v] == numeral && body[v..] == extra
  {
    var body := " " + raw + ". " + numeral + extra;
    var h := |raw| + 3;
    var v := h + |numeral|;
    forall k | h <= k < v ensures InClass(body[k], Numeral) {
      assert body[k] == numeral[k - h];
    }
    if extra != [] {
      assert body[v] == extra[0];
    }
    SkipWhileIs(body, h, Numeral, v);
    assert body[1..|raw| + 1] == raw;
    assert body[h..v] == numeral;
    assert body[v..] == extra;
  }

  // ---------------------------------------------------------------------
  // One block as a value, and the step `process` takes

  /** What `to_dict` and the block's entries hold: a numeral (kept as the
      text `float()` would convert), no value, or text. */
  datatype Field = Number(numeral: string) | NoValue | Text(text: string)

  datatype Block = Block(
    logDate: string,
    logTime: string,
    counterName: string,
    sampleStart: Option<string>,
    sampleEnd: Option<string>,
    entries: map<string, Field>,
    lifetimeEntries: bool,
    names: seq<string>)

  /** A block as `PerfmonEntry.__init__` leaves it. */
  function NewBlock(logDate: string, logTime: string): (b: Block)
    ensures b.logTime == LogTime(logTime) && b.logDate == logDate
    ensures b.counterName == "" && b.sampleStart == None && b.sampleEnd == None
    ensures b.entries == map[] && b.names == [] && !b.lifetimeEntries
  {
    Block(logDate, LogTime(logTime), "", None, None, map[], false, [])
  }

  /** `PerfmonEntry.process`, on values: the new block and whether the block
      is complete, or the error it raises. */
  function Step(b: Block, line: string): Result<(Block, bool), string>
  {
    if line == Separator then Ok((b, |b.entries| > 0))
    else if |b.counterName| == 0 then Ok((b.(counterName := line), false))
    else if b.sampleStart.None? then
      match ParseSampleRange(line)
      case None => Err("Unable to parse sample range [" + line + "]")
      case Some((start, end)) =>
        Ok((b.(sampleStart := Some(b.logDate + " " + start), sampleEnd := Some(b.logDate + " " + end)), false))
    else if StartsWith(line, "Lifetime") then Ok((b.(lifetimeEntries := true), false))
    else
      match ParseCounter(line)
      case None => Ok((b, false))
      case Some(c) => Ok((AddCounter(b, c), false))
  }

  /** A counter line: both keys are recorded, in `names` and in `entries`. */
  function AddCounter(b: Block, c: Counter): (r: Block)
    ensures r == b.(names := r.names, entries := r.entries)
    ensures r.names == b.names + [c.name, c.name + "_extra"]
    ensures r.entries.Keys == b.entries.Keys + {c.name, c.name + "_extra"}
    ensures r.entries[c.name + "_extra"] == Text(c.extra)
    ensures r.entries[c.name] == if c.value == [] then NoValue else Number(c.value)
    ensures forall k :: k in b.entries && k != c.name && k != c.name + "_extra" ==> r.entries[k] == b.entries[k]
  {
    var extraKey := c.name + "_extra";
    assert extraKey != c.name by { assert |extraKey| > |c.name|; }
    var value := if c.value == [] then NoValue else Number(c.value);
    b.(names := b.names + [c.name, extraKey], entries := b.entries[c.name := value][extraKey := Text(c.extra)])
  }

  /** The separator line changes nothing and ends the block exactly when it
      holds values. */
  lemma {:induction false} StepSeparator(b: Block)
    ensures Step(b, Separator) == Ok((b, |b.entries| > 0))
  {
  }

  /** The first other line of a block is its counter name. */
  lemma {:induction false} StepCounterName(b: Block, line: string)
    requires line != Separator && b.counterName == ""
    ensures Step(b, line) == Ok((b.(counterName := line), false))
  {
  }

  /** A named block without a sample range demands one on its next line. */
  lemma {:induction false} StepNeedsRange(b: Block, line: string)
    requires line != Separator && b.counterName != "" && b.sampleStart.None?
    ensures Step(b, line).Err? <==> ParseSampleRange(line).None?
    ensures Step(b, line).Ok? ==> Step(b, line).value.0.sampleStart.Some? && !Step(b, line).value.1
  {
  }

  /** After the range, a `Lifetime` line or a line that is not a counter
      leaves the entries and names as they were. */
  lemma {:induction false} StepKeepsValues(b: Block, line: string)
    requires line != Separator && b.counterName != "" && b.sampleStart.Some?
    requires StartsWith(line, "Lifetime") || ParseCounter(line).None?
    ensures Step(b, line).Ok?
    ensures var (b', done) := Step(b, line).value;
            b'.entries == b.entries && b'.names == b.names && !done
  {
  }

  /** The keys of a block's entries are exactly its recorded names, and a
      block with values has its name and range. */
  ghost predicate WellFormed(b: Block) {
    && b.entries.Keys == (set n | n in b.names)
    && (|b.entries| > 0 ==> b.sampleStart.Some?)
    && (b.sampleStart.Some? ==> b.sampleEnd.Some? && b.counterName != "")
  }

  lemma {:induction false} StepKeepsWellFormed(b: Block, line: string)
    requires WellFormed(b) && Step(b, line).Ok?
    ensures WellFormed(Step(b, line).value.0)
  {
    if line != Separator && |b.counterName| != 0 && b.sampleStart.Some? && !StartsWith(line, "Lifetime") {
      var p := ParseCounter(line);
      if p.Some? {
        assert Step(b, line).value.0 == AddCounter(b, p.value);
        AddCounterKeepsWellFormed(b, p.value);
      }
    }
  }

  lemma {:induction false} AddCounterKeepsWellFormed(b: Block, c: Counter)
    requires WellFormed(b) && b.sampleStart.Some?
    ensures WellFormed(AddCounter(b, c))
  {
    var r := AddCounter(b, c);
    assert (set n | n in r.names) == (set n | n in b.names) + {c.name, c.name + "_extra"};
  }

  /** `to_dict`: the five base keys, then the entries, which win on a clash. */
  function ToDict(b: Block): (d: map<string, Field>)
    ensures d.Keys == b.entries.Keys + {"log_date", "log_time", "counter_name", "sample_start", "sample_end"}
    ensures forall k :: k in b.entries ==> d[k] == b.entries[k]
    ensures "log_date" !in b.entries ==> d["log_date"] == Text(b.logDate)
    ensures "log_time" !in b.entries ==> d["log_time"] == Text(b.logTime)
    ensures "counter_name" !in b.entries ==> d["counter_name"] == Text(b.counterName)
    ensures "sample_start" !in b.entries ==> d["sample_start"] == Text(b.logDate + " " + Shown(b.sampleStart))
    ensures "sample_end" !in b.entries ==> d["sample_end"] == Text(b.logDate + " " + Shown(b.sampleEnd))
  {
    var base := map[
      "log_date" := Text(b.logDate),
      "log_time" := Text(b.logTime),
      "counter_name" := Text(b.counterName),
      "sample_start" := Text(b.logDate + " " + Shown(b.sampleStart)),
      "sample_end" := Text(b.logDate + " " + Shown(b.sampleEnd))];
    base + b.entries
  }

  /** How an f-string shows a sample time that may be missing. */
  function Shown(t: Option<string>): string {
    if t.None? then "None" else t.value
  }

  // ---------------------------------------------------------------------
  // The object `process` updates

  class PerfmonEntry {
    const logDate: string
    const logTime: string
    var counterName: string
    var sampleStart: Option<string>
    var sampleEnd: Option<string>
    var entries: map<string, Field>
    var lifetimeEntries: bool
    var names: seq<string>

    function Value(): Block
      reads this
    {
      Block(logDate, logTime, counterName, sampleStart, sampleEnd, entries, lifetimeEntries, names)
    }

    constructor (logDate: string, logTime: string)
      ensures Value() == NewBlock(logDate, logTime)
    {
      this.logDate := logDate;
      this.logTime := LogTime(logTime);
      counterName := "";
      sampleStart := None;
      sampleEnd := None;
      entries := map[];
      lifetimeEntries := false;
      names := [];
    }

    /** `process`: takes the step on this block; a line that raises
        changes nothing. */
    method Process(line: string) returns (r: Result<bool, string>)
      modifies this
      ensures r.Ok? <==> Step(old(Value()), line).Ok?
      ensures r.Ok? ==> Step(old(Value()), line).value == (Value(), r.value)
      ensures r.Err? ==> Step(old(Value()), line).error == r.error && Value() == old(Value())
    {
      if line == Separator {
        return Ok(|entries| > 0);
      }
      if |counterName| == 0 {
        counterName := line;
        return Ok(false);
      }
      if sampleStart.None? {
        var range := ParseSampleRange(line);
        if range.None? {
          return Err("Unable to parse sample range [" + line + "]");
        }
        sampleStart := Some(logDate + " " + range.value.0);
        sampleEnd := Some(logDate + " " + range.value.1);
        return Ok(false);
      }
      if StartsWith(line, "Lifetime") {
        lifetimeEntries := true;
        return Ok(false);
      }
      var counter := ParseCounter(line);
      if counter.Some? {
        Record(counter.value);
      }
      return Ok(false);
    }

    /** A parsed counter line: the name and its `_extra` twin go into
        `names` and `entries`. */
    method Record(c: Counter)
      modifies this
      ensures Value() == AddCounter(old(Value()), c)
    {
      var extraKey := c.name + "_extra";
      names := names + [c.name];
      names := names + [extraKey];
      entries := entries[c.name := if |c.value| > 0 then Number(c.value) else NoValue];
      entries := entries[extraKey := Text(c.extra)];
    }
  }

  /** `process_log_line`: a new block for a header line, nothing otherwise. */
  method ProcessLogLine(line: string) returns (entry: PerfmonEntry?)
    ensures entry == null <==> ParseHeader(line).None?
    ensures entry != null ==>
              fresh(entry) && entry.Value() == NewBlock(ParseHeader(line).value.0, ParseHeader(line).value.1)
  {
    var header := ParseHeader(line);
    if header.None? {
      return null;
    }
    entry := new PerfmonEntry(header.value.0, header.value.1);
  }

  // ---------------------------------------------------------------------
  // process_file

  /** The block being read, if any, and the blocks completed so far. */
  datatype Reading = Reading(current: Option<Block>, done: seq<Block>)

  /** One line of `process_file`, after `rstrip()`. */
  function ReadLine(st: Reading, line: string): Result<Reading, string>
  {
    match st.current
    case Some(b) =>
      (match Step(b, line)
       case Err(e) => Err(e)
       case Ok((b', complete)) =>
         if complete then Ok(Reading(None, st.done + [b'])) else Ok(Reading(Some(b'), st.done)))
    case None =>
      match ParseHeader(line)
      case None => Ok(st)
      case Some((date, time)) => Ok(Reading(Some(NewBlock(date, time)), st.done))
  }

  /** The lines read in order; the first error stops the reading. */
  function ReadLines(lines: seq<string>): Result<Reading, string>
  {
    if lines == [] then Ok(Reading(None, []))
    else
      match ReadLines(lines[..|lines| - 1])
      case Err(e) => Err(e)
      case Ok(st) => ReadLine(st, RStrip(lines[|lines| - 1]))
  }

  /** `process_file` on values: the completed blocks. A block still open at
      the end of the file is not returned. */
  function ReadBlocks(lines: seq<string>): Result<seq<Block>, string>
  {
    match ReadLines(lines)
    case Err(e) => Err(e)
    case Ok(st) => Ok(st.done)
  }

  /** Outside a block, a line that is not a perfmon header is skipped. */
  lemma {:induction false} OutsideBlockSkipped(st: Reading, line: string)
    requires st.current.None? && ParseHeader(line).None?
    ensures ReadLine(st, line) == Ok(st)
  {
  }

  /** Every block read is well formed, and every completed one has values,
      a counter name and a sample range. */
  lemma {:induction false} ReadLinesWellFormed(lines: seq<string>)
    requires ReadLines(lines).Ok?
    ensures var st := ReadLines(lines).value;
            && (st.current.Some? ==> WellFormed(st.current.value))
            && forall k :: 0 <= k < |st.done| ==>
                 WellFormed(st.done[k]) && |st.done[k].entries| > 0
                 && st.done[k].counterName != "" && st.done[k].sampleStart.Some?
  {
    if lines != [] {
      var init := lines[..|lines| - 1];
      ReadLinesWellFormed(init);
      var st := ReadLines(init).value;
      var line := RStrip(lines[|lines| - 1]);
      match st.current
      case Some(b) =>
        StepKeepsWellFormed(b, line);
        var (b', complete) := Step(b, line).value;
        if complete {
          assert line == Separator && b' == b && |b.entries| > 0;
        }
      case None =>
    }
  }

  ghost function Blocks(entries: seq<PerfmonEntry>): (r: seq<Block>)
    reads set e | e in entries
    ensures |r| == |entries| && forall k :: 0 <= k < |entries| ==> r[k] == entries[k].Value()
  {
    seq(|entries|, k requires 0 <= k < |entries| reads set e | e in entries => entries[k].Value())
  }

  /** `process_file`: the completed blocks, in file order, or the error the
      first bad sample range raises. */
  method ProcessFile(lines: seq<string>) returns (r: Result<seq<PerfmonEntry>, string>)
    ensures r.Ok? <==> ReadBlocks(lines).Ok?
    ensures r.Ok? ==> Blocks(r.value) == ReadBlocks(lines).value
    ensures r.Err? ==> r.error == ReadBlocks(lines).error
  {
    var current: PerfmonEntry? := null;
    var done: seq<PerfmonEntry> := [];
    for i := 0 to |lines|
      invariant ReadLines(lines[..i]).Ok?
      invariant Mirrors(current, done, ReadLines(lines[..i]).value)
      invariant current != null ==> fresh(current)
    {
      ReadLinesStep(lines, i);
      var error;
      current, done, error := ReadInto(current, done, ReadLines(lines[..i]).value, RStrip(lines[i]));
      if error.Some? {
        FirstErrorStops(lines, i + 1);
        return Err(error.value);
      }
    }
    assert lines[..|lines|] == lines;
    r := Ok(done);
  }

  /** One pass of the loop of `process_file` over an already stripped line:
      the open entry takes the line, or a header line opens an entry. */
  method ReadInto(current: PerfmonEntry?, done: seq<PerfmonEntry>, ghost st: Reading, line: string)
    returns (current': PerfmonEntry?, done': seq<PerfmonEntry>, error: Option<string>)
    requires Mirrors(current, done, st)
    modifies current
    ensures error.Some? <==> ReadLine(st, line).Err?
    ensures error.Some? ==> error.value == ReadLine(st, line).error
    ensures error.None? ==> Mirrors(current', done', ReadLine(st, line).value)
    ensures current' != null ==> current' == current || fresh(current')
  {
    current', done', error := current, done, None;
    if current != null {
      var complete := current.Process(line);
      if complete.Err? {
        return current, done, Some(complete.error);
      }
      if complete.value {
        done' := done + [current];
        current' := null;
      }
    } else {
      current' := ProcessLogLine(line);
    }
  }

  /** The open entry and the list of finished ones hold the blocks of `st`. */
  ghost predicate Mirrors(current: PerfmonEntry?, done: seq<PerfmonEntry>, st: Reading)
    reads current, set e | e in done
  {
    && Blocks(done) == st.done
    && (current == null <==> st.current.None?)
    && (current != null ==> current.Value() == st.current.value && current !in done)
  }

  lemma {:induction false} ReadLinesStep(lines: seq<string>, i: nat)
    requires i < |lines| && ReadLines(lines[..i]).Ok?
    ensures ReadLines(lines[..i + 1]) == ReadLine(ReadLines(lines[..i]).value, RStrip(lines[i]))
  {
    assert lines[..i + 1][..i] == lines[..i];
  }

  /** An error while reading a prefix is the error of the whole file. */
  lemma {:induction false} FirstErrorStops(lines: seq<string>, i: nat)
    requires i <= |lines| && ReadLines(lines[..i]).Err?
    ensures ReadLines(lines).Err? && ReadLines(lines).error == ReadLines(lines[..i]).error
    decreases |lines| - i
  {
    if i < |lines| {
      assert lines[..i + 1][..i] == lines[..i];
      FirstErrorStops(lines, i + 1);
    } else {
      assert lines[..i] == lines;
    }
  }

  // ---------------------------------------------------------------------
  // list_counters

  predicate StrictlySorted(s: seq<string>) {
    forall i, j :: 0 <= i < j < |s| ==> LexLess(s[i], s[j])
  }

  /** Adds `x` to a strictly sorted list unless it is already there. */
  function InsertName(sorted: seq<string>, x: string): seq<string>
  {
    if sorted == [] then [x]
    else if x == sorted[0] then sorted
    else if LexLess(x, sorted[0]) then [x] + sorted
    else [sorted[0]] + InsertName(sorted[1..], x)
  }

  lemma {:induction false} InsertNameSorted(sorted: seq<string>, x: string)
    requires StrictlySorted(sorted)
    ensures StrictlySorted(InsertName(sorted, x))
    ensures forall n :: n in InsertName(sorted, x) <==> n in sorted || n == x
  {
    if sorted == [] {
    } else if x == sorted[0] {
    } else if LexLess(x, sorted[0]) {
      var r := [x] + sorted;
      forall i, j | 0 <= i < j < |r| ensures LexLess(r[i], r[j]) {
        if i == 0 && j > 1 {
          LexLessTransitive(x, sorted[0], sorted[j - 1]);
        }
      }
    } else {
      var tail := sorted[1..];
      InsertNameSorted(tail, x);
      LexLessTotal(x, sorted[0]);
      var rest := InsertName(tail, x);
      forall n | n in rest ensures LexLess(sorted[0], n) {
        if n != x {
          var k :| 0 <= k < |tail| && tail[k] == n;
          assert sorted[k + 1] == n;
        }
      }
      var r := [sorted[0]] + rest;
      forall i, j | 0 <= i < j < |r| ensures LexLess(r[i], r[j]) {
        if i == 0 {
          assert r[j] == rest[j - 1] && r[j] in rest;
        } else {
          assert r[i] == rest[i - 1] && r[j] == rest[j - 1];
        }
      }
    }
  }

  /** `sorted(set(map(lambda entry: entry.counter_name, ...)))`, one name
      at a time. */
  function ListCounters(blocks: seq<Block>): seq<string>
  {
    if blocks == [] then []
    else InsertName(ListCounters(blocks[..|blocks| - 1]), blocks[|blocks| - 1].counterName)
  }

  /** The counter names once each, in increasing order. */
  lemma {:induction false} ListCountersSortedDistinct(blocks: seq<Block>)
    ensures StrictlySorted(ListCounters(blocks))
    ensures forall n :: n in ListCounters(blocks) <==> exists k :: 0 <= k < |blocks| && blocks[k].counterName == n
  {
    if blocks != [] {
      var init := blocks[..|blocks| - 1];
      ListCountersSortedDistinct(init);
      InsertNameSorted(ListCounters(init), blocks[|blocks| - 1].counterName);
      forall n ensures n in ListCounters(blocks) <==> exists k :: 0 <= k < |blocks| && blocks[k].counterName == n {
        if n in ListCounters(blocks) && n != blocks[|blocks| - 1].counterName {
          var k :| 0 <= k < |init| && init[k].counterName == n;
          assert blocks[k].counterName == n;
        }
        if exists k :: 0 <= k < |blocks| && blocks[k].counterName == n {
          var k :| 0 <= k < |blocks| && blocks[k].counterName == n;
          if k < |init| {
            assert init[k].counterName == n;
          }
        }
      }
    }
  }
}
