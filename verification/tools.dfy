/** Tool spans: log entries whose message marks the start or the finish of
    a tool run, and the running count of tools in progress stamped on every
    entry. The JSON payload of a marker is decoded by a function the caller
    supplies, which either yields the payload or fails. */
module Tools {
  import opened Wrappers
  import opened Text
  import opened StructuredLog

  datatype ToolEntryType = Start | Finish

  /** Why building a tool entry raises. */
  datatype ToolError =
    | UnknownType(name: string)   // `ToolEntryType[...]` has no such member
    | MissingPayload              // no ": " in the message, so no second chunk
    | BadPayload                  // the payload does not decode

  /** A decoded tool marker; `data` stands for the six payload fields
      (deployment id, tool id and name, location, duration, parameters). */
  datatype ToolEntry<P> = ToolEntry(entry: LogEntry, kind: ToolEntryType, data: P)

  const StartMarker := "TOOL START:"
  const FinishMarker := "TOOL FINISH:"

  /** `ToolEntry.is_tool` */
  predicate IsTool(message: string) {
    StartsWith(message, StartMarker) || StartsWith(message, FinishMarker)
  }

  /** `message.split(': ', 1)`: the text before the first separator and,
      when there is one, the text after it. */
  function SplitOnce(message: string): (r: (string, Option<string>))
    ensures r.1.None? <==> !Contains(message, ": ")
    ensures r.1.Some? ==> message == r.0 + ": " + r.1.value && !Contains(r.0, ": ")
    ensures r.1.None? ==> r.0 == message
  {
    var found := IndexOf(message, ": ");
    if found.None? then (message, None)
    else
      var j := found.value;
      var head := message[..j];
      assert message == head + ": " + message[j + 2..];
      forall k | 0 <= k <= |head| ensures !OccursAt(head, ": ", k) {
        if k + 2 <= |head| {
          assert head[k..k + 2] == message[k..k + 2];
          assert !OccursAt(message, ": ", k);
        }
      }
      (head, Some(message[j + 2..]))
  }

  /** The characters `lstrip("TOOL ")` removes. */
  const TypePrefixChars: set<char> := {'T', 'O', 'L', ' '}

  /** `ToolEntryType[chunks[0].lstrip("TOOL ")]` */
  function TypeByName(chunk: string): (r: Result<ToolEntryType, ToolError>)
    ensures r == Ok(Start) <==> LStripChars(chunk, TypePrefixChars) == "START"
    ensures r == Ok(Finish) <==> LStripChars(chunk, TypePrefixChars) == "FINISH"
    ensures r.Err? ==> r.error == UnknownType(LStripChars(chunk, TypePrefixChars))
  {
    var name := LStripChars(chunk, TypePrefixChars);
    if name == "START" then Ok(Start)
    else if name == "FINISH" then Ok(Finish)
    else Err(UnknownType(name))
  }

  /** `ToolEntry.__init__`: the type is looked up before the payload is
      read, so a bad type name is reported even when the separator is
      missing. */
  function ParseToolEntry<P>(entry: LogEntry, decode: string -> Option<P>): (r: Result<ToolEntry<P>, ToolError>)
    ensures r.Ok? ==> r.value.entry == entry && Contains(entry.message, ": ")
    ensures r.Ok? ==> TypeByName(SplitOnce(entry.message).0) == Ok(r.value.kind)
    ensures r.Ok? ==> decode(SplitOnce(entry.message).1.value) == Some(r.value.data)
    ensures r == Err(MissingPayload) ==> !Contains(entry.message, ": ")
  {
    var (head, payload) := SplitOnce(entry.message);
    match TypeByName(head)
    case Err(e) => Err(e)
    case Ok(kind) =>
      match payload
      case None => Err(MissingPayload)
      case Some(p) =>
        match decode(p)
        case None => Err(BadPayload)
        case Some(data) => Ok(ToolEntry(entry, kind, data))
  }

  /** A marker written the usual way, `TOOL START: {json}`, is a START
      entry carrying the decoded JSON, or fails only in the decode. */
  lemma {:induction false} StartMarkerParses<P>(entry: LogEntry, payload: string, decode: string -> Option<P>)
    requires entry.message == "TOOL START: " + payload
    ensures IsTool(entry.message)
    ensures ParseToolEntry(entry, decode)
            == if decode(payload).Some? then Ok(ToolEntry(entry, Start, decode(payload).value)) else Err(BadPayload)
  {
    assert entry.message[..|StartMarker|] == StartMarker;
    MarkerSplits(entry.message, "TOOL START", payload);
    StartName();
  }

  /** Likewise `TOOL FINISH: {json}` is a FINISH entry. */
  lemma {:induction false} FinishMarkerParses<P>(entry: LogEntry, payload: string, decode: string -> Option<P>)
    requires entry.message == "TOOL FINISH: " + payload
    ensures IsTool(entry.message)
    ensures ParseToolEntry(entry, decode)
            == if decode(payload).Some? then Ok(ToolEntry(entry, Finish, decode(payload).value)) else Err(BadPayload)
  {
    assert entry.message[..|FinishMarker|] == FinishMarker;
    MarkerSplits(entry.message, "TOOL FINISH", payload);
    FinishName();
  }

  /** `lstrip("TOOL ")` drops the word TOOL and the space after it. */
  lemma {:induction false} StripToolWord(rest: string)
    ensures LStripChars("TOOL " + rest, TypePrefixChars) == LStripChars(rest, TypePrefixChars)
  {
    assert forall k :: 0 <= k < |"TOOL "| ==> "TOOL "[k] in TypePrefixChars;
    LStripSkips("TOOL ", rest, TypePrefixChars);
  }

  /** The type names themselves start with no character of the set. */
  lemma {:induction false} NamesKept()
    ensures LStripChars("START", TypePrefixChars) == "START"
    ensures LStripChars("FINISH", TypePrefixChars) == "FINISH"
  {
    LStripKeeps("START", TypePrefixChars);
    LStripKeeps("FINISH", TypePrefixChars);
  }

  /** What is left is the type's own name. */
  lemma {:induction false} StartName()
    ensures TypeByName("TOOL START") == Ok(Start)
  {
    StripToolWord("START");
    NamesKept();
    assert "TOOL " + "START" == "TOOL START";
  }

  lemma {:induction false} FinishName()
    ensures TypeByName("TOOL FINISH") == Ok(Finish)
  {
    StripToolWord("FINISH");
    NamesKept();
    assert "TOOL " + "FINISH" == "TOOL FINISH";
  }

  /** A head without ':' followed by ": " is where the first split falls. */
  lemma {:induction false} MarkerSplits(message: string, head: string, payload: string)
    requires message == head + ": " + payload
    requires forall k :: 0 <= k < |head| ==> head[k] != ':'
    ensures SplitOnce(message) == (head, Some(payload))
  {
    assert OccursAt(message, ": ", |head|);
    forall k | 0 <= k < |head| ensures !OccursAt(message, ": ", k) {
      assert message[k] == head[k];
    }
    var j := IndexOf(message, ": ").value;
    assert j == |head|;
    assert message[j + 2..] == payload;
  }

  /** A tool marker whose only ": " is missing is an error, never skipped:
      `TOOL START:{json}` raises. */
  lemma {:induction false} NoSeparatorRaises<P>(entry: LogEntry, decode: string -> Option<P>)
    requires !Contains(entry.message, ": ")
    ensures ParseToolEntry(entry, decode).Err?
  {
  }

  // ---------------------------------------------------------------------
  // get_tools

  /** The entries `is_tool` selects, in input order. */
  function ToolRecords(entries: seq<LogEntry>): (r: seq<LogEntry>)
    ensures forall e :: e in r ==> e in entries && IsTool(e.message)
    ensures forall e :: e in entries && IsTool(e.message) ==> e in r
  {
    if entries == [] then []
    else
      var n := |entries| - 1;
      assert entries == entries[..n] + [entries[n]];
      ToolRecords(entries[..n]) + if IsTool(entries[n].message) then [entries[n]] else []
  }

  /** Selection distributes over concatenation: the tool entries of two
      stretches of log are those of the first followed by those of the
      second. */
  lemma {:induction false} ToolRecordsConcat(a: seq<LogEntry>, b: seq<LogEntry>)
    ensures ToolRecords(a + b) == ToolRecords(a) + ToolRecords(b)
    decreases |b|
  {
    if b == [] {
      assert a + b == a;
    } else {
      var n := |b| - 1;
      assert (a + b)[..|a + b| - 1] == a + b[..n];
      ToolRecordsConcat(a, b[..n]);
    }
  }

  /** `get_tools`: the comprehension raises at the first marker that does
      not build; otherwise one tool entry per marker, in order. */
  function GetTools<P>(entries: seq<LogEntry>, decode: string -> Option<P>): (r: Result<seq<ToolEntry<P>>, ToolError>)
  {
    if entries == [] then Ok([])
    else
      var n := |entries| - 1;
      match GetTools(entries[..n], decode)
      case Err(e) => Err(e)
      case Ok(tools) =>
        if !IsTool(entries[n].message) then Ok(tools)
        else
          match ParseToolEntry(entries[n], decode)
          case Err(e) => Err(e)
          case Ok(t) => Ok(tools + [t])
  }

  /** `get_tools` succeeds exactly when every marker builds. */
  lemma {:induction false} GetToolsSucceeds<P>(entries: seq<LogEntry>, decode: string -> Option<P>)
    ensures GetTools(entries, decode).Ok?
            <==> forall e :: e in ToolRecords(entries) ==> ParseToolEntry(e, decode).Ok?
  {
    if entries != [] {
      var n := |entries| - 1;
      GetToolsSucceeds(entries[..n], decode);
      var recs := ToolRecords(entries[..n]);
      if IsTool(entries[n].message) {
        assert ToolRecords(entries) == recs + [entries[n]];
      } else {
        assert ToolRecords(entries) == recs;
      }
    }
  }

  /** When it succeeds, `get_tools` yields one entry per marker, in input
      order. */
  lemma {:induction false} GetToolsFollowsMarkers<P>(entries: seq<LogEntry>, decode: string -> Option<P>)
    requires GetTools(entries, decode).Ok?
    ensures var tools := GetTools(entries, decode).value;
            && |tools| == |ToolRecords(entries)|
            && forall k :: 0 <= k < |tools| ==> Ok(tools[k]) == ParseToolEntry(ToolRecords(entries)[k], decode)
  {
    if entries != [] {
      var n := |entries| - 1;
      GetToolsFollowsMarkers(entries[..n], decode);
      var recs := ToolRecords(entries[..n]);
      var tools := GetTools(entries[..n], decode).value;
      if IsTool(entries[n].message) {
        var t := ParseToolEntry(entries[n], decode).value;
        assert ToolRecords(entries) == recs + [entries[n]];
        assert GetTools(entries, decode).value == tools + [t];
        forall k | 0 <= k < |tools| + 1
          ensures Ok((tools + [t])[k]) == ParseToolEntry((recs + [entries[n]])[k], decode)
        {
          if k < |tools| {
            assert (tools + [t])[k] == tools[k] && (recs + [entries[n]])[k] == recs[k];
          }
        }
      } else {
        assert ToolRecords(entries) == recs;
      }
    }
  }

  // ---------------------------------------------------------------------
  // get_tools_and_mark_log_entries_with_concurrent_jobs

  /** What one entry adds to the running count: +1 for a START marker, -1
      for any other marker, nothing for an ordinary entry. */
  function Delta(message: string): int {
    if !IsTool(message) then 0
    else if TypeByName(SplitOnce(message).0) == Ok(Start) then 1
    else -1
  }

  /** The number of START markers minus the number of other markers. */
  function Balance(messages: seq<string>): (b: int)
    ensures -|messages| <= b <= |messages|
  {
    if messages == [] then 0 else Balance(messages[..|messages| - 1]) + Delta(messages[|messages| - 1])
  }

  function Messages(entries: seq<LogEntry>): (r: seq<string>)
    ensures |r| == |entries| && forall k :: 0 <= k < |entries| ==> r[k] == entries[k].message
  {
    seq(|entries|, k requires 0 <= k < |entries| => entries[k].message)
  }

  /** Ordinary entries leave the count alone. */
  lemma {:induction false} BalanceSkipsOrdinary(messages: seq<string>, m: string)
    requires !IsTool(m)
    ensures Balance(messages + [m]) == Balance(messages)
  {
    assert (messages + [m])[..|messages|] == messages;
  }

  /** The count is not guarded: a FINISH with no START before it drives it
      below zero. */
  lemma {:induction false} BalanceCanGoNegative()
    ensures Balance(["TOOL FINISH: {}"]) == -1
  {
    var m := "TOOL FINISH: {}";
    assert StartsWith(m, FinishMarker);
    MarkerSplits(m, "TOOL FINISH", "{}");
    assert [m][..0] == [];
  }

  /** No later entry in `entries[..n]` is the same object as `entries[k]`:
      the stamp `entries[k]` carries is the one written at position `k`. */
  ghost predicate LastOccurrence(entries: seq<LogEntry>, k: nat, n: nat)
    requires k < n <= |entries|
  {
    forall j :: k < j < n ==> entries[j] != entries[k]
  }

  /** The first position whose marker does not build, if any. */
  function FirstFailure<P>(entries: seq<LogEntry>, decode: string -> Option<P>): (f: nat)
    ensures f <= |entries|
    ensures forall k :: 0 <= k < f ==> !IsTool(entries[k].message) || ParseToolEntry(entries[k], decode).Ok?
    ensures f < |entries| ==> IsTool(entries[f].message) && ParseToolEntry(entries[f], decode).Err?
  {
    FailureFrom(entries, decode, 0)
  }

  function FailureFrom<P>(entries: seq<LogEntry>, decode: string -> Option<P>, i: nat): (f: nat)
    requires i <= |entries|
    ensures i <= f <= |entries|
    ensures forall k :: i <= k < f ==> !IsTool(entries[k].message) || ParseToolEntry(entries[k], decode).Ok?
    ensures f < |entries| ==> IsTool(entries[f].message) && ParseToolEntry(entries[f], decode).Err?
    decreases |entries| - i
  {
    if i == |entries| then i
    else if IsTool(entries[i].message) && ParseToolEntry(entries[i], decode).Err? then i
    else FailureFrom(entries, decode, i + 1)
  }

  /** Every entry among the first `i` carries, in `jobs`, the balance at
      its own position (the last one, when an entry occurs twice). */
  ghost predicate StampedAt(entries: seq<LogEntry>, jobs: seq<int>, i: nat)
    requires i <= |entries| == |jobs|
  {
    forall k :: 0 <= k < i && LastOccurrence(entries, k, i) ==>
      jobs[k] == Balance(Messages(entries[..k + 1]))
  }

  /** The stamps the entries carry. */
  ghost function Jobs(entries: seq<LogEntry>): (r: seq<int>)
    reads entries
    ensures |r| == |entries| && forall k :: 0 <= k < |entries| ==> r[k] == entries[k].concurrentJobs
  {
    seq(|entries|, k requires 0 <= k < |entries| reads entries => entries[k].concurrentJobs)
  }

  ghost predicate Stamped(entries: seq<LogEntry>, i: nat)
    requires i <= |entries|
    reads entries
  {
    StampedAt(entries, Jobs(entries), i)
  }

  /** Entries not among the first `i` keep, in `jobs`, the stamp recorded
      in `before`. */
  ghost predicate UntouchedAt(entries: seq<LogEntry>, jobs: seq<int>, i: nat, before: seq<int>)
    requires i <= |entries| == |before| == |jobs|
  {
    forall k :: i <= k < |entries| && (forall j :: 0 <= j < i ==> entries[j] != entries[k]) ==>
      jobs[k] == before[k]
  }

  ghost predicate Untouched(entries: seq<LogEntry>, i: nat, before: seq<int>)
    requires i <= |entries| == |before|
    reads entries
  {
    UntouchedAt(entries, Jobs(entries), i, before)
  }

  /** Stamping entry `i` with the balance up to it extends both facts by
      one position. */
  lemma {:induction false} StampStep(entries: seq<LogEntry>, jobs: seq<int>, jobs': seq<int>, i: nat, running: int, before: seq<int>)
    requires i < |entries| == |jobs| == |jobs'| == |before|
    requires StampedAt(entries, jobs, i) && UntouchedAt(entries, jobs, i, before)
    requires running == Balance(Messages(entries[..i + 1]))
    requires forall k :: 0 <= k < |entries| ==> jobs'[k] == if entries[k] == entries[i] then running else jobs[k]
    ensures StampedAt(entries, jobs', i + 1) && UntouchedAt(entries, jobs', i + 1, before)
  {
    forall k | 0 <= k < i + 1 && LastOccurrence(entries, k, i + 1)
      ensures jobs'[k] == Balance(Messages(entries[..k + 1]))
    {
      if k < i {
        assert LastOccurrence(entries, k, i) && entries[k] != entries[i];
      }
    }
    forall k | i + 1 <= k < |entries| && (forall j :: 0 <= j < i + 1 ==> entries[j] != entries[k])
      ensures jobs'[k] == before[k]
    {
      assert entries[i] != entries[k];
      assert forall j :: 0 <= j < i ==> entries[j] != entries[k];
    }
  }

  /** The marking pass returns what `get_tools` returns; every entry before
      the first marker that raises (all of them when none does) is stamped
      with the balance of the markers up to and including itself, and the
      entries from that marker on keep their old stamp. */
  method MarkConcurrentJobs<P>(entries: seq<LogEntry>, decode: string -> Option<P>)
    returns (r: Result<seq<ToolEntry<P>>, ToolError>)
    modifies set k | 0 <= k < |entries| :: entries[k]
    ensures r == GetTools(entries, decode)
    ensures r.Ok? <==> FirstFailure(entries, decode) == |entries|
    ensures Stamped(entries, FirstFailure(entries, decode))
    ensures var f := FirstFailure(entries, decode);
            forall k :: f <= k < |entries| && (forall j :: 0 <= j < f ==> entries[j] != entries[k]) ==>
              entries[k].concurrentJobs == old(entries[k].concurrentJobs)
    ensures forall k :: 0 <= k < |entries| ==> entries[k].lines == old(entries[k].lines)
  {
    var tools: seq<ToolEntry<P>> := [];
    var running := 0;
    ghost var f := FirstFailure(entries, decode);
    ghost var before := Jobs(entries);
    for i := 0 to |entries|
      invariant i <= f
      invariant GetTools(entries[..i], decode) == Ok(tools)
      invariant running == Balance(Messages(entries[..i]))
      invariant Stamped(entries, i)
      invariant Untouched(entries, i, before)
      invariant forall k :: 0 <= k < |entries| ==> entries[k].lines == old(entries[k].lines)
    {
      var entry := entries[i];
      MarkStep(entries, decode, i, tools);
      if IsTool(entry.message) {
        var t := ParseToolEntry(entry, decode);
        if t.Err? {
          StopsAtFailure(entries, decode, i);
          return Err(t.error);
        }
        tools := tools + [t.value];
        running := running + if t.value.kind == Start then 1 else -1;
      }
      assert i < f;
      StampEntry(entries, i, entry, running, before);
    }
    assert entries[..|entries|] == entries;
    r := Ok(tools);
  }

  /** One step of the marking loop, on values: the prefix result and the
      balance grow as `get_tools` and the count say. */
  lemma {:induction false} MarkStep<P>(entries: seq<LogEntry>, decode: string -> Option<P>, i: nat, tools: seq<ToolEntry<P>>)
    requires i < |entries| && GetTools(entries[..i], decode) == Ok(tools)
    ensures var e := entries[i];
            GetTools(entries[..i + 1], decode)
            == if !IsTool(e.message) then Ok(tools)
               else match ParseToolEntry(e, decode)
                    case Err(err) => Err(err)
                    case Ok(t) => Ok(tools + [t])
    ensures Balance(Messages(entries[..i + 1])) == Balance(Messages(entries[..i])) + Delta(entries[i].message)
    ensures IsTool(entries[i].message) && ParseToolEntry(entries[i], decode).Ok? ==>
              Delta(entries[i].message) == if ParseToolEntry(entries[i], decode).value.kind == Start then 1 else -1
  {
    assert entries[..i + 1][..i] == entries[..i];
    assert Messages(entries[..i + 1]) == Messages(entries[..i]) + [entries[i].message];
  }

  /** Writes the running count onto entry `i`. */
  method StampEntry(entries: seq<LogEntry>, i: nat, entry: LogEntry, running: int, ghost before: seq<int>)
    requires i < |entries| == |before| && entries[i] == entry
    requires Stamped(entries, i) && running == Balance(Messages(entries[..i + 1]))
    requires Untouched(entries, i, before)
    modifies entry`concurrentJobs
    ensures Stamped(entries, i + 1) && Untouched(entries, i + 1, before)
    ensures entry.concurrentJobs == running
  {
    ghost var jobs := Jobs(entries);
    entry.concurrentJobs := running;
    StampStep(entries, jobs, Jobs(entries), i, running, before);
  }

  /** Once a prefix builds, the first marker that raises decides the
      result of `get_tools` on the whole list. */
  lemma {:induction false} StopsAtFailure<P>(entries: seq<LogEntry>, decode: string -> Option<P>, i: nat)
    requires i < |entries| && GetTools(entries[..i], decode).Ok?
    requires IsTool(entries[i].message) && ParseToolEntry(entries[i], decode).Err?
    ensures GetTools(entries, decode) == Err(ParseToolEntry(entries[i], decode).error)
    decreases |entries|
  {
    var n := |entries| - 1;
    if i == n {
      assert entries[..n] == entries[..i];
    } else {
      assert entries[..n][..i] == entries[..i];
      StopsAtFailure(entries[..n], decode, i);
    }
  }
}
