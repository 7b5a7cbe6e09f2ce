/** Response times from an Aspen Wildfly access log. Each access line gives
    a duration in milliseconds and a request path; the durations are
    gathered under `"all"` and, when split, under the request path with
    session ids and object ids blanked out. */
module AspenP95 {
  import opened Wrappers
  import opened Text

  // ---------------------------------------------------------------------
  // response_pattern

  /** Where a match of the response pattern sits in the line: the tab
      before the duration, the end of the duration digits, the tab before
      the status code, and the bounds of the request. */
  datatype Hit = Hit(tab: nat, digitsEnd: nat, statusTab: nat, requestStart: nat, requestEnd: nat)

  datatype Response = Response(duration: nat, request: string)

  /** `(GET|POST|HEAD|DELETE|PATCH)\t` at `m`: where the text after the tab
      starts. The verbs are upper-case words and none is followed by
      another upper-case letter in the pattern, so an alternative matches
      exactly when the run of capitals at `m` is a verb and a tab ends it. */
  function VerbEnd(line: string, m: nat): (r: Option<nat>)
    requires m <= |line|
    ensures r.Some? ==> m + 4 <= r.value <= |line| && line[r.value - 1] == '\t' && line[m..r.value - 1] in Verbs
  {
    var j := SkipWhile(line, m, Upper);
    if j < |line| && line[j] == '\t' && line[m..j] in Verbs then Some(j + 1) else None
  }

  const Verbs: set<string> := {"GET", "POST", "HEAD", "DELETE", "PATCH"}

  /** `ms\t` at `d`. */
  predicate MsTab(line: string, d: nat) {
    d + 3 <= |line| && line[d] == 'm' && line[d + 1] == 's' && line[d + 2] == '\t'
  }

  /** The part of the pattern after `.*`, tried with the tab at `p`:
      `\t(\d+)ms\t\S*\t\d\d\d\t(verb)\t([^?\t]+)`. Each piece is greedy and
      none can give characters back to the next, so one pass decides. */
  function HitAt(line: string, p: nat): (r: Option<Hit>)
    requires p <= |line|
    ensures r.Some? ==> r.value.tab == p < |line| && line[p] == '\t'
    ensures r.Some? ==> p + 1 < r.value.digitsEnd <= |line| - 3
    ensures r.Some? ==> r.value.digitsEnd + 3 <= r.value.statusTab && r.value.statusTab + 5 < r.value.requestStart
    ensures r.Some? ==> r.value.requestStart < r.value.requestEnd <= |line|
  {
    if p == |line| || line[p] != '\t' then None
    else
      var d := SkipWhile(line, p + 1, Digit);
      if d == p + 1 || !MsTab(line, d) then None
      else
        var st := StatusFrom(line, d + 3);
        if st.None? then None else Some(Hit(p, d, st.value.0, st.value.1, st.value.2))
  }

  /** `\d\d\d` after the tab at `q`. */
  predicate StatusDigits(line: string, q: nat)
    requires q + 4 <= |line|
  {
    IsDigit(line[q + 1]) && IsDigit(line[q + 2]) && IsDigit(line[q + 3])
  }

  /** `\S*\t\d\d\d\t(verb)\t([^?\t]+)` from `a`: the tab before the
      status code and the bounds of the request. */
  function StatusFrom(line: string, a: nat): (r: Option<(nat, nat, nat)>)
    requires a <= |line|
    ensures r.Some? ==> a <= r.value.0 && r.value.0 + 5 < r.value.1 < r.value.2 <= |line|
    ensures r.Some? ==> line[r.value.0] == '\t'
    ensures r.Some? ==> line[r.value.0 + 4] == '\t' && line[r.value.1 - 1] == '\t'
    ensures r.Some? ==> r.value.2 == |line| || !NotQueryOrTab(line[r.value.2])
  {
    var q := SkipWhile(line, a, NonSpace);
    if !(q + 5 <= |line| && line[q] == '\t' && StatusDigits(line, q) && line[q + 4] == '\t') then None
    else
      match VerbEnd(line, q + 5)
      case None => None
      case Some(s) =>
        var e := SkipWhile(line, s, NotQueryTab);
        SkipWhileAll(line, s, NotQueryTab);
        if e == s then None else Some((q, s, e))
  }

  /** The duration group `(\d+)` holds digits only. */
  lemma {:induction false} HitDigits(line: string, p: nat)
    requires p <= |line| && HitAt(line, p).Some?
    ensures AllDigits(line[p + 1..HitAt(line, p).value.digitsEnd])
  {
    SkipWhileAll(line, p + 1, Digit);
  }

  /** The request group `[^?\t]+` holds neither a question mark nor a tab. */
  lemma {:induction false} RequestHasNoQuery(line: string, a: nat)
    requires a <= |line| && StatusFrom(line, a).Some?
    ensures var (_, s, e) := StatusFrom(line, a).value;
            forall k :: s <= k < e ==> NotQueryOrTab(line[k])
  {
    var q := SkipWhile(line, a, NonSpace);
    var s := VerbEnd(line, q + 5).value;
    SkipWhileAll(line, s, NotQueryTab);
  }

  /** No tab from `lo` to `hi` starts a match of the rest of the pattern. */
  predicate NoHitIn(line: string, lo: nat, hi: nat)
    requires hi <= |line|
    decreases hi
  {
    hi < lo || (HitAt(line, hi).None? && (hi == 0 || NoHitIn(line, lo, hi - 1)))
  }

  /** The greedy `.*`: the last tab position in `lo..hi` from which the
      rest of the pattern matches. */
  function LastHit(line: string, lo: nat, hi: nat): (r: Option<Hit>)
    requires lo <= hi <= |line|
    ensures r.Some? ==> lo <= r.value.tab <= hi && HitAt(line, r.value.tab) == r
    decreases hi
  {
    var h := HitAt(line, hi);
    if h.Some? then h
    else if hi == lo then None
    else LastHit(line, lo, hi - 1)
  }

  /** The greedy `.*` takes the last position that works: no later tab up
      to `hi` has a match, and when none is found no tab from `lo` has. */
  lemma {:induction false} LastHitIsLast(line: string, lo: nat, hi: nat)
    requires lo <= hi <= |line|
    ensures var r := LastHit(line, lo, hi);
            && (r.Some? ==> NoHitIn(line, r.value.tab + 1, hi))
            && (r.None? ==> NoHitIn(line, lo, hi))
    decreases hi
  {
    if HitAt(line, hi).None? && hi > lo {
      LastHitIsLast(line, lo, hi - 1);
    }
  }

  /** `response_pattern.match`: a date at the start of the line, then
      anything but a line break up to the tab of the last place where
      the rest matches. */
  function FindHit(line: string): (r: Option<Hit>)
    ensures r.Some? ==> |line| >= 10 && MatchesTemplate(line[..10], "####-##-##")
    ensures r.Some? ==> 10 <= r.value.tab < |line| && '\n' !in line[10..r.value.tab]
    ensures r.Some? ==> HitAt(line, r.value.tab) == r
  {
    if |line| < 10 || !MatchesTemplate(line[..10], "####-##-##") then None
    else
      var e := SkipWhile(line, 10, NotNewline);
      SkipWhileAll(line, 10, NotNewline);
      var r := LastHit(line, 10, e);
      assert r.Some? ==> '\n' !in line[10..r.value.tab] by {
        if r.Some? {
          forall k | 10 <= k < r.value.tab ensures line[k] != '\n' {
            assert InClass(line[k], NotNewline);
          }
        }
      }
      r
  }

  /** The duration and the request of an access line, if it is one. */
  function ParseResponse(line: string): (r: Option<Response>)
    ensures r.Some? <==> FindHit(line).Some?
    ensures r.Some? ==> var h := FindHit(line).value;
            && AllDigits(line[h.tab + 1..h.digitsEnd])
            && r.value == Response(DigitsValue(line[h.tab + 1..h.digitsEnd]), line[h.requestStart..h.requestEnd])
  {
    match FindHit(line)
    case None => None
    case Some(h) =>
      HitDigits(line, h.tab);
      Some(Response(DigitsValue(line[h.tab + 1..h.digitsEnd]), line[h.requestStart..h.requestEnd]))
  }

  // ---------------------------------------------------------------------
  // Which access lines the pattern reads, and how

  /** A prefix of `line` that ends with `piece`: the piece sits just
      after the shorter prefix. */
  lemma {:induction false} PrefixPiece(line: string, prefix: string, piece: string)
    requires StartsWith(line, prefix + piece)
    ensures StartsWith(line, prefix) && line[|prefix|..|prefix| + |piece|] == piece
  {
    assert line[..|prefix|] == (prefix + piece)[..|prefix|];
    assert line[|prefix|..|prefix| + |piece|] == (prefix + piece)[|prefix|..];
  }

  lemma {:induction false} VerbEndIs(line: string, m: nat, verb: string)
    requires verb in Verbs && m + |verb| < |line| && line[m..m + |verb|] == verb && line[m + |verb|] == '\t'
    ensures VerbEnd(line, m) == Some(m + |verb| + 1)
  {
    VerbUpper(verb);
    RunIs(line, m, verb, Upper);
  }

  lemma {:induction false} VerbUpper(verb: string)
    requires verb in Verbs
    ensures forall k :: 0 <= k < |verb| ==> IsUpper(verb[k])
  {
  }

  /** A match is the duration digits, `ms` and a tab, then the rest of
      the pattern from there. */
  lemma {:induction false} HitShape(line: string, p: nat)
    requires p <= |line| && HitAt(line, p).Some?
    ensures var h := HitAt(line, p).value;
            && MsTab(line, h.digitsEnd)
            && StatusFrom(line, h.digitsEnd + 3) == Some((h.statusTab, h.requestStart, h.requestEnd))
  {
  }

  /** A match needs four more tabs after its own. */
  lemma {:induction false} HitTabs(line: string, k: nat) returns (a: nat, b: nat, c: nat, d: nat)
    requires k <= |line| && HitAt(line, k).Some?
    ensures k < a < b < c < d < |line|
    ensures line[a] == '\t' && line[b] == '\t' && line[c] == '\t' && line[d] == '\t'
  {
    var h := HitAt(line, k).value;
    HitShape(line, k);
    var st := StatusFrom(line, h.digitsEnd + 3).value;
    a, b, c, d := h.digitsEnd + 2, st.0, st.0 + 4, st.1 - 1;
  }

  /** The tabs after `p` are exactly `t1` to `t4`. */
  predicate TabsOnly(line: string, p: nat, t1: nat, t2: nat, t3: nat, t4: nat) {
    forall j :: p < j < |line| && line[j] == '\t' ==> j == t1 || j == t2 || j == t3 || j == t4
  }

  /** With exactly four tabs after `p`, no later tab starts a match. */
  lemma {:induction false} NoLaterHit(line: string, p: nat, t1: nat, t2: nat, t3: nat, t4: nat, hi: nat)
    requires p < t1 < t2 < t3 < t4 < |line| && hi <= |line|
    requires TabsOnly(line, p, t1, t2, t3, t4)
    ensures NoHitIn(line, p + 1, hi)
    decreases hi
  {
    if hi >= p + 1 {
      if hi > 0 {
        NoLaterHit(line, p, t1, t2, t3, t4, hi - 1);
      }
      if HitAt(line, hi).Some? {
        var a, b, c, d := HitTabs(line, hi);
      }
    }
  }

  /** The greedy scan finds the match at `p` when no later tab has one. */
  lemma {:induction false} LastHitFinds(line: string, lo: nat, hi: nat, p: nat)
    requires lo <= p <= hi <= |line| && HitAt(line, p).Some? && NoHitIn(line, p + 1, hi)
    ensures LastHit(line, lo, hi) == HitAt(line, p)
    decreases hi
  {
    if hi > p {
      LastHitFinds(line, lo, hi - 1, p);
    }
  }

  /** An access line: a date, anything without a line break, then the
      tab-separated duration with `ms`, a field without blanks, a status
      code, a verb and the request, which ends at a `?`, a tab or the end
      of the line. The match yields exactly that duration and request. */
  lemma {:induction false} ResponseLine(date: string, mid: string, digits: string, agent: string, status: string,
                     verb: string, request: string, tail: string)
    requires MatchesTemplate(date, "####-##-##") && '\n' !in mid
    requires |digits| > 0 && AllDigits(digits)
    requires forall k :: 0 <= k < |agent| ==> NotSpace(agent[k])
    requires |status| == 3 && AllDigits(status) && verb in Verbs
    requires |request| > 0 && forall k :: 0 <= k < |request| ==> NotQueryOrTab(request[k])
    requires (tail == [] || !NotQueryOrTab(tail[0])) && '\t' !in tail
    ensures ParseResponse(date + mid + "\t" + digits + "ms\t" + agent + "\t" + status + "\t" + verb + "\t" + request + tail)
            == Some(Response(DigitsValue(digits), request))
  {
    var line := date + mid + "\t" + digits + "ms\t" + agent + "\t" + status + "\t" + verb + "\t" + request + tail;
    var p := |date| + |mid|;
    var d := p + 1 + |digits|;
    var q := d + 3 + |agent|;
    var s := q + 5 + |verb| + 1;
    var e := s + |request|;
    ResponseLayout(line, date, mid, digits, agent, status, verb, request, tail, p, d, q, s, e);
    LayoutParses(line, date, mid, digits, agent, status, verb, request, tail, p, d, q, s, e);
  }

  /** Where each part of an access line sits: the tab before the duration
      at `p`, the duration digits up to `d`, the tab before the status code
      at `q`, the request from `s` to `e`. */
  ghost predicate Layout(line: string, date: string, mid: string, digits: string, agent: string, status: string,
                         verb: string, request: string, tail: string, p: nat, d: nat, q: nat, s: nat, e: nat) {
    && p == |date| + |mid| && d == p + 1 + |digits| && q == d + 3 + |agent| && s == q + 5 + |verb| + 1
    && e == s + |request| && e + |tail| == |line|
    && line[..|date|] == date && line[|date|..p] == mid
    && line[p] == '\t' && line[p + 1..d] == digits && line[d..d + 3] == "ms\t"
    && line[d + 3..q] == agent && line[q] == '\t' && line[q + 1..q + 4] == status && line[q + 4] == '\t'
    && line[q + 5..s - 1] == verb && line[s - 1] == '\t'
    && line[s..e] == request && line[e..] == tail
  }

  /** The same, for a line with the parts where the layout puts them. */
  lemma {:induction false} LayoutParses(line: string, date: string, mid: string, digits: string, agent: string, status: string,
                     verb: string, request: string, tail: string, p: nat, d: nat, q: nat, s: nat, e: nat)
    requires Layout(line, date, mid, digits, agent, status, verb, request, tail, p, d, q, s, e)
    requires MatchesTemplate(date, "####-##-##") && '\n' !in mid
    requires |digits| > 0 && AllDigits(digits)
    requires forall k :: 0 <= k < |agent| ==> NotSpace(agent[k])
    requires |status| == 3 && AllDigits(status) && verb in Verbs
    requires |request| > 0 && forall k :: 0 <= k < |request| ==> NotQueryOrTab(request[k])
    requires (tail == [] || !NotQueryOrTab(tail[0])) && '\t' !in tail
    ensures ParseResponse(line) == Some(Response(DigitsValue(digits), request))
  {
    if tail != [] {
      assert line[e] == line[e..][0];
    }
    ResponseHit(line, p, digits, agent, status, verb, request, d, q, s, e);
    ResponseOnlyHit(line, digits, agent, status, verb, request, tail, p, d, q, s, e);
    FindHitIs(line, p, d + 2, q, q + 4, s - 1);
  }

  /** A date, a first tab at `p` with no line break before it, a match of
      the rest at `p` and only the four tabs that match needs after it:
      the pattern takes the match at `p`. */
  lemma {:induction false} FindHitIs(line: string, p: nat, t1: nat, t2: nat, t3: nat, t4: nat)
    requires 10 <= p < t1 < t2 < t3 < t4 < |line|
    requires MatchesTemplate(line[..10], "####-##-##") && '\n' !in line[10..p]
    requires HitAt(line, p).Some? && TabsOnly(line, p, t1, t2, t3, t4)
    ensures FindHit(line) == HitAt(line, p)
  {
    forall k | 10 <= k < p ensures NotLineBreak(line[k]) {
      assert line[k] == line[10..p][k - 10];
    }
    SkipWhilePasses(line, 10, NotNewline, p);
    var stop := SkipWhile(line, 10, NotNewline);
    NoLaterHit(line, p, t1, t2, t3, t4, stop);
    LastHitFinds(line, 10, stop, p);
  }

  /** A run of qualifying characters that the next character ends is
      exactly what the scan passes over. */
  lemma {:induction false} RunIs(line: string, i: nat, piece: string, p: CharClass)
    requires i + |piece| <= |line| && line[i..i + |piece|] == piece
    requires forall k :: 0 <= k < |piece| ==> InClass(piece[k], p)
    requires i + |piece| < |line| ==> !InClass(line[i + |piece|], p)
    ensures SkipWhile(line, i, p) == i + |piece|
  {
    forall k | i <= k < i + |piece| ensures InClass(line[k], p) {
      assert line[k] == line[i..i + |piece|][k - i];
    }
    SkipWhileIs(line, i, p, i + |piece|);
  }

  /** `\S*\t\d\d\d\t(verb)\t([^?\t]+)` from `a` once each piece is known. */
  lemma {:induction false} StatusAt(line: string, a: nat, q: nat, s: nat, e: nat)
    requires a <= q && q + 5 <= |line| && s <= e <= |line|
    requires SkipWhile(line, a, NonSpace) == q && line[q] == '\t' && AllDigits(line[q + 1..q + 4]) && line[q + 4] == '\t'
    requires VerbEnd(line, q + 5) == Some(s) && SkipWhile(line, s, NotQueryTab) == e && s < e
    ensures StatusFrom(line, a) == Some((q, s, e))
  {
    assert line[q + 1..q + 4][0] == line[q + 1] && line[q + 1..q + 4][1] == line[q + 2] && line[q + 1..q + 4][2] == line[q + 3];
  }

  /** `\t\d+ms\t` at `p` followed by the rest from `d + 3`. */
  lemma {:induction false} HitAtIs(line: string, p: nat, d: nat, q: nat, s: nat, e: nat)
    requires p < |line| && line[p] == '\t' && p + 1 < d && SkipWhile(line, p + 1, Digit) == d
    requires MsTab(line, d) && StatusFrom(line, d + 3) == Some((q, s, e))
    ensures HitAt(line, p) == Some(Hit(p, d, q, s, e))
  {
    var st := StatusFrom(line, d + 3);
    assert st.value.0 == q && st.value.1 == s && st.value.2 == e;
  }

  /** The status code, the verb and the request where the layout puts
      them. */
  lemma {:induction false} StatusPart(line: string, a: nat, agent: string, status: string, verb: string, request: string,
                   q: nat, s: nat, e: nat)
    requires forall k :: 0 <= k < |agent| ==> NotSpace(agent[k])
    requires |status| == 3 && AllDigits(status) && verb in Verbs
    requires |request| > 0 && forall k :: 0 <= k < |request| ==> NotQueryOrTab(request[k])
    requires q == a + |agent| && s == q + 5 + |verb| + 1 && e == s + |request| && e <= |line|
    requires line[a..q] == agent && line[q] == '\t' && line[q + 1..q + 4] == status && line[q + 4] == '\t'
    requires line[q + 5..s - 1] == verb && line[s - 1] == '\t'
    requires line[s..e] == request && (e == |line| || !NotQueryOrTab(line[e]))
    ensures StatusFrom(line, a) == Some((q, s, e))
  {
    RunIs(line, a, agent, NonSpace);
    VerbEndIs(line, q + 5, verb);
    RunIs(line, s, request, NotQueryTab);
    StatusAt(line, a, q, s, e);
  }

  /** The rest of the pattern matches at the tab before the duration. */
  lemma {:induction false} ResponseHit(line: string, p: nat, digits: string, agent: string, status: string, verb: string,
                    request: string, d: nat, q: nat, s: nat, e: nat)
    requires |digits| > 0 && AllDigits(digits)
    requires forall k :: 0 <= k < |agent| ==> NotSpace(agent[k])
    requires |status| == 3 && AllDigits(status) && verb in Verbs
    requires |request| > 0 && forall k :: 0 <= k < |request| ==> NotQueryOrTab(request[k])
    requires d == p + 1 + |digits| && q == d + 3 + |agent| && s == q + 5 + |verb| + 1 && e == s + |request| && e <= |line|
    requires line[p] == '\t' && line[p + 1..d] == digits && line[d..d + 3] == "ms\t"
    requires line[d + 3..q] == agent && line[q] == '\t' && line[q + 1..q + 4] == status && line[q + 4] == '\t'
    requires line[q + 5..s - 1] == verb && line[s - 1] == '\t'
    requires line[s..e] == request && (e == |line| || !NotQueryOrTab(line[e]))
    ensures HitAt(line, p) == Some(Hit(p, d, q, s, e))
  {
    assert line[d] == line[d..d + 3][0] && line[d + 1] == line[d..d + 3][1] && line[d + 2] == line[d..d + 3][2];
    RunIs(line, p + 1, digits, Digit);
    StatusPart(line, d + 3, agent, status, verb, request, q, s, e);
    HitAtIs(line, p, d, q, s, e);
  }

  /** After the tab before the duration, the only tabs are the four the
      pattern needs. */
  lemma {:induction false} ResponseOnlyHit(line: string, digits: string, agent: string, status: string, verb: string,
                        request: string, tail: string, p: nat, d: nat, q: nat, s: nat, e: nat)
    requires AllDigits(digits)
    requires forall k :: 0 <= k < |agent| ==> NotSpace(agent[k])
    requires AllDigits(status) && verb in Verbs
    requires forall k :: 0 <= k < |request| ==> NotQueryOrTab(request[k])
    requires '\t' !in tail
    requires d == p + 1 + |digits| && q == d + 3 + |agent| && s == q + 5 + |verb| + 1 && e == s + |request| && e + |tail| == |line|
    requires line[p + 1..d] == digits && line[d..d + 3] == "ms\t"
    requires line[d + 3..q] == agent && line[q + 1..q + 4] == status
    requires line[q + 5..s - 1] == verb && line[s..e] == request && line[e..] == tail
    ensures TabsOnly(line, p, d + 2, q, q + 4, s - 1)
  {
    VerbUpper(verb);
    forall j | p < j < |line| && line[j] == '\t' ensures j == d + 2 || j == q || j == q + 4 || j == s - 1 {
    }
  }

  /** Where each part of an access line sits. */
  lemma {:induction false} ResponseLayout(line: string, date: string, mid: string, digits: string, agent: string, status: string,
                       verb: string, request: string, tail: string, p: nat, d: nat, q: nat, s: nat, e: nat)
    requires |status| == 3
    requires line == date + mid + "\t" + digits + "ms\t" + agent + "\t" + status + "\t" + verb + "\t" + request + tail
    requires p == |date| + |mid| && d == p + 1 + |digits| && q == d + 3 + |agent| && s == q + 5 + |verb| + 1
    requires e == s + |request|
    ensures Layout(line, date, mid, digits, agent, status, verb, request, tail, p, d, q, s, e)
  {
    var l1 := date + mid;
    var l2 := l1 + "\t";
    var l3 := l2 + digits;
    var l4 := l3 + "ms\t";
    var l5 := l4 + agent;
    var l6 := l5 + "\t";
    var l7 := l6 + status;
    var l8 := l7 + "\t";
    var l9 := l8 + verb;
    var l10 := l9 + "\t";
    var l11 := l10 + request;
    assert line == l11 + tail;
    PrefixPiece(line, l11, tail);
    PrefixPiece(line, l10, request);
    PrefixPiece(line, l9, "\t");
    PrefixPiece(line, l8, verb);
    PrefixPiece(line, l7, "\t");
    PrefixPiece(line, l6, status);
    PrefixPiece(line, l5, "\t");
    PrefixPiece(line, l4, agent);
    PrefixPiece(line, l3, "ms\t");
    PrefixPiece(line, l2, digits);
    PrefixPiece(line, l1, "\t");
    PrefixPiece(line, date, mid);
    assert line[|l11|..] == tail;
  }

  // ---------------------------------------------------------------------
  // The three substitutions

  const SessionKey := "jsessionid="

  /** `re.sub('jsessionid=.*', 'jsessionid', s)`: every match, left to
      right; `.*` stops at a line break. */
  function SubSession(s: string): (r: string)
    ensures !Contains(s, SessionKey) ==> r == s
    decreases |s|
  {
    match IndexOf(s, SessionKey)
    case None => s
    case Some(i) =>
      var e := SkipWhile(s, i + |SessionKey|, NotNewline);
      s[..i] + "jsessionid" + SubSession(s[e..])
  }

  /** What an object id becomes: a slash, `*OID*` and a slash. */
  const OidMark := "/" + "*OID*" + "/"

  /** `[a-zA-Z$0-9]` */
  predicate IsOidChar(c: char) { IsLetter(c) || IsDigit(c) || c == '$' }

  /** `/[a-zA-Z]{3}[a-zA-Z$0-9]{11}/` at `i`. */
  predicate OidAt(s: string, i: nat) {
    && i + 16 <= |s|
    && s[i] == '/' && s[i + 15] == '/'
    && IsLetter(s[i + 1]) && IsLetter(s[i + 2]) && IsLetter(s[i + 3])
    && forall k :: i + 4 <= k < i + 15 ==> IsOidChar(s[k])
  }

  /** `re.sub(oid_pattern, ...)`, each match becoming the text `OidMark`: the scan tries each position
      in turn and resumes after a replaced match, so matches never
      overlap. */
  function SubOid(s: string): (r: string)
    ensures |r| <= |s|
    decreases |s|
  {
    if s == [] then []
    else if OidAt(s, 0) then OidMark + SubOid(s[16..])
    else [s[0]] + SubOid(s[1..])
  }

  /** A folder name between slashes. */
  function Folder(name: string): string {
    "/" + name + "/"
  }

  const OtherNames: set<string> := {"banner", "assignments", "submissions"}

  /** `/(banner|assignments|submissions)/` at `i`: the name. */
  function OtherAt(s: string, i: nat): (r: Option<string>)
    ensures r.Some? ==> r.value in OtherNames && OccursAt(s, Folder(r.value), i)
    ensures r.None? ==> forall n :: n in OtherNames ==> !OccursAt(s, Folder(n), i)
  {
    if OccursAt(s, Folder("banner"), i) then Some("banner")
    else if OccursAt(s, Folder("assignments"), i) then Some("assignments")
    else if OccursAt(s, Folder("submissions"), i) then Some("submissions")
    else None
  }

  /** The leftmost position from `i` on where `OtherAt` matches. */
  function FirstOther(s: string, i: nat): (r: Option<(nat, string)>)
    requires i <= |s|
    ensures r.Some? ==> i <= r.value.0 < |s| && OtherAt(s, r.value.0) == Some(r.value.1)
    ensures r.Some? ==> forall k :: i <= k < r.value.0 ==> OtherAt(s, k).None?
    ensures r.None? ==> forall k :: i <= k <= |s| ==> OtherAt(s, k).None?
    decreases |s| - i
  {
    match OtherAt(s, i)
    case Some(n) => Some((i, n))
    case None => if i == |s| then None else FirstOther(s, i + 1)
  }

  /** `re.sub(oid_other_pattern, ...)`: from a named folder to the end of
      the line, everything after the folder's slash becomes `*OID*`. */
  function SubOther(s: string): (r: string)
    ensures FirstOther(s, 0).None? ==> r == s
    decreases |s|
  {
    match FirstOther(s, 0)
    case None => s
    case Some((i, name)) =>
      var e := SkipWhile(s, i + |name| + 2, NotNewline);
      s[..i] + "/" + name + "/*OID*" + SubOther(s[e..])
  }

  // ---------------------------------------------------------------------
  // What the substitutions do to one line

  /** A line break, if any, only at the very end: a request cut from a
      line of the file. */
  predicate OneLine(s: string) {
    forall k :: 0 <= k < |s| - 1 ==> s[k] != '\n'
  }

  /** The line break that ends `s`, if there is one. */
  function Trailer(s: string): string {
    if |s| > 0 && s[|s| - 1] == '\n' then "\n" else ""
  }

  /** Where `.*` started at `j` stops on a single line: just before the
      trailing line break. */
  lemma {:induction false} LineRest(s: string, j: nat)
    requires OneLine(s) && j <= |s| && (j == 0 || s[j - 1] != '\n')
    ensures s[SkipWhile(s, j, NotNewline)..] == Trailer(s)
  {
    var e := SkipWhile(s, j, NotNewline);
    if e < |s| {
      assert e == |s| - 1;
    } else if |s| > 0 {
      SkipWhileAll(s, j, NotNewline);
      assert |s| - 1 >= j ==> InClass(s[|s| - 1], NotNewline);
    }
  }

  /** Everything from the first `jsessionid=` on becomes `jsessionid`. */
  lemma {:induction false} SessionTruncates(s: string, i: nat)
    requires OneLine(s) && IndexOf(s, SessionKey) == Some(i)
    ensures SubSession(s) == s[..i] + "jsessionid" + Trailer(s)
  {
    assert OccursAt(s, SessionKey, i);
    assert s[i + 10] == s[i..i + 11][10] == '=';
    LineRest(s, i + |SessionKey|);
    assert !Contains(Trailer(s), SessionKey);
  }

  /** No `jsessionid=` is left on the line. */
  lemma {:induction false} SessionGone(s: string)
    requires OneLine(s)
    ensures !Contains(SubSession(s), SessionKey)
  {
    match IndexOf(s, SessionKey)
    case None =>
    case Some(i) =>
      SessionTruncates(s, i);
      KeyCut(s, i, Trailer(s));
  }

  /** Cutting `s` at its first `jsessionid=` and writing `jsessionid` plus
      a tail without '=' leaves no `jsessionid=`. */
  lemma {:induction false} KeyCut(s: string, i: nat, tail: string)
    requires i <= |s| && forall j :: 0 <= j < i ==> !OccursAt(s, SessionKey, j)
    requires '=' !in tail
    ensures !Contains(s[..i] + "jsessionid" + tail, SessionKey)
  {
    var r := s[..i] + "jsessionid" + tail;
    forall j | 0 <= j <= |r| ensures !OccursAt(r, SessionKey, j) {
      if OccursAt(r, SessionKey, j) {
        assert r[j + 10] == SessionKey[10] == '=';
        if j + 10 < i {
          assert r[j..j + 11] == s[j..j + 11];
          assert OccursAt(s, SessionKey, j);
        }
      }
    }
  }

  /** Blanking the session id a second time changes nothing. */
  lemma {:induction false} SessionIdempotent(s: string)
    requires OneLine(s)
    ensures SubSession(SubSession(s)) == SubSession(s)
  {
    SessionGone(s);
  }

  /** Text with no object id is left as it is. */
  lemma {:induction false} NoOidUnchanged(s: string)
    requires forall i :: 0 <= i < |s| ==> !OidAt(s, i)
    ensures SubOid(s) == s
    decreases |s|
  {
    if s != [] {
      assert !OidAt(s, 0);
      forall i | 0 <= i < |s| - 1 ensures !OidAt(s[1..], i) {
        assert !OidAt(s, i + 1);
      }
      NoOidUnchanged(s[1..]);
    }
  }

  /** Text without a slash passes through the scan unchanged. */
  lemma {:induction false} SlashFreePrefix(p: string, rest: string)
    requires '/' !in p
    ensures SubOid(p + rest) == p + SubOid(rest)
    decreases |p|
  {
    if p != [] {
      assert (p + rest)[0] == p[0] && !OidAt(p + rest, 0);
      assert (p + rest)[1..] == p[1..] + rest;
      SlashFreePrefix(p[1..], rest);
    } else {
      assert p + rest == rest;
    }
  }

  /** An object id between two slash-free texts is replaced, and only it. */
  lemma {:induction false} LoneOidReplaced(p: string, oid: string, t: string)
    requires '/' !in p && '/' !in t
    requires |oid| == 16 && OidAt(oid, 0)
    ensures SubOid(p + oid + t) == p + OidMark + t
  {
    SlashFreePrefix(p, oid + t);
    assert p + oid + t == p + (oid + t);
    assert (oid + t)[..16] == oid && (oid + t)[16..] == t;
    assert OidAt(oid + t, 0);
    forall i | 0 <= i < |t| ensures !OidAt(t, i) {
      assert t[i] != '/';
    }
    NoOidUnchanged(t);
  }

  /** Two object ids sharing a slash: the scan resumes after the shared
      slash, so the second one is not replaced. */
  lemma {:induction false} SharedSlash(first: string, second: string)
    requires |first| == 16 && OidAt(first, 0)
    requires |second| == 16 && OidAt(second, 0)
    ensures SubOid(first + second[1..]) == OidMark + second[1..]
  {
    var s := first + second[1..];
    assert s[..16] == first && s[16..] == second[1..];
    assert OidAt(s, 0);
    NoOidUnchanged(second[1..]);
  }

  /** From the first named folder on, the line becomes the folder and
      `*OID*`. */
  lemma {:induction false} OtherTruncates(s: string, i: nat, name: string)
    requires OneLine(s) && FirstOther(s, 0) == Some((i, name))
    ensures SubOther(s) == s[..i] + "/" + name + "/*OID*" + Trailer(s)
  {
    assert |Folder(name)| == |name| + 2;
    assert s[i + |name| + 1] == Folder(name)[|name| + 1] == '/';
    LineRest(s, i + |name| + 2);
    var t := Trailer(s);
    assert FirstOther(t, 0).None?;
  }

  /** The request path as `get_split_durations` files it: session id,
      then object ids, then the named folders. */
  function Normalise(request: string): string {
    SubOther(SubOid(SubSession(request)))
  }

  // ---------------------------------------------------------------------
  // get_durations and get_split_durations

  /** The durations of the access lines, in file order. */
  function Durations(lines: seq<string>): seq<nat> {
    if lines == [] then []
    else
      Durations(lines[..|lines| - 1])
      + match ParseResponse(lines[|lines| - 1])
        case None => []
        case Some(r) => [r.duration]
  }

  /** The durations of the access lines whose normalised path is `path`. */
  function PathDurations(lines: seq<string>, path: string): seq<nat> {
    if lines == [] then []
    else
      PathDurations(lines[..|lines| - 1], path)
      + match ParseResponse(lines[|lines| - 1])
        case Some(r) => if Normalise(r.request) == path then [r.duration] else []
        case None => []
  }

  /** `durations_raw[key].append(d)` on a `defaultdict(list)`. */
  function Append(m: map<string, seq<nat>>, key: string, d: nat): (r: map<string, seq<nat>>)
    ensures r.Keys == m.Keys + {key}
    ensures r[key] == (if key in m then m[key] else []) + [d]
    ensures forall k :: k in m && k != key ==> r[k] == m[k]
  {
    m[key := (if key in m then m[key] else []) + [d]]
  }

  /** One line of `get_split_durations`. */
  function FileLine(m: map<string, seq<nat>>, line: string, split: bool): map<string, seq<nat>> {
    match ParseResponse(line)
    case None => m
    case Some(r) =>
      var all := Append(m, "all", r.duration);
      if split then Append(all, Normalise(r.request), r.duration) else all
  }

  function SplitDurations(lines: seq<string>, split: bool): map<string, seq<nat>> {
    if lines == [] then map[]
    else FileLine(SplitDurations(lines[..|lines| - 1], split), lines[|lines| - 1], split)
  }

  /** `get_durations`, on the lines of the file. */
  method GetDurations(lines: seq<string>) returns (durations: seq<nat>)
    ensures durations == Durations(lines)
  {
    durations := [];
    for i := 0 to |lines|
      invariant durations == Durations(lines[..i])
    {
      assert lines[..i + 1][..i] == lines[..i];
      var response := ParseResponse(lines[i]);
      if response.Some? {
        durations := durations + [response.value.duration];
      }
    }
    assert lines[..|lines|] == lines;
  }

  /** `get_split_durations`, on the lines of the file. */
  method GetSplitDurations(lines: seq<string>, split: bool) returns (durations: map<string, seq<nat>>)
    ensures durations == SplitDurations(lines, split)
  {
    durations := map[];
    for i := 0 to |lines|
      invariant durations == SplitDurations(lines[..i], split)
    {
      SplitStep(lines, i, split);
      ghost var before := durations;
      var response := ParseResponse(lines[i]);
      if response.Some? {
        var duration := response.value.duration;
        var request := Normalise(response.value.request);
        durations := durations["all" := (if "all" in durations then durations["all"] else []) + [duration]];
        if split {
          durations := durations[request := (if request in durations then durations[request] else []) + [duration]];
        }
      }
      assert durations == FileLine(before, lines[i], split);
    }
    assert lines[..|lines|] == lines;
  }

  lemma {:induction false} SplitStep(lines: seq<string>, i: nat, split: bool)
    requires i < |lines|
    ensures SplitDurations(lines[..i + 1], split) == FileLine(SplitDurations(lines[..i], split), lines[i], split)
  {
    assert lines[..i + 1][..i] == lines[..i];
  }

  // ---------------------------------------------------------------------
  // What the buckets hold

  /** No access line has a normalised path that is literally `all`. */
  ghost predicate NoAllPath(lines: seq<string>) {
    forall k :: 0 <= k < |lines| ==> PathOf(lines[k]) != Some("all")
  }

  /** `"all"` is a key exactly when some line is an access line. */
  lemma {:induction false} AllKeyPresent(lines: seq<string>, split: bool)
    ensures "all" in SplitDurations(lines, split) <==> Durations(lines) != []
  {
    if lines != [] {
      AllKeyPresent(lines[..|lines| - 1], split);
    }
  }

  /** Every duration goes to `"all"`, in file order, unless a path that is
      itself `all` adds it a second time. */
  lemma {:induction false} AllHoldsEveryDuration(lines: seq<string>, split: bool)
    requires !split || NoAllPath(lines)
    ensures "all" in SplitDurations(lines, split) ==> SplitDurations(lines, split)["all"] == Durations(lines)
  {
    if lines != [] {
      var init := lines[..|lines| - 1];
      assert !split || NoAllPath(init) by {
        if split {
          forall k | 0 <= k < |init| ensures PathOf(init[k]) != Some("all") {
            assert init[k] == lines[k];
          }
        }
      }
      AllHoldsEveryDuration(init, split);
      AllKeyPresent(init, split);
    }
  }

  /** Without `split`, `"all"` is the only key. */
  lemma {:induction false} UnsplitOnlyAll(lines: seq<string>)
    ensures SplitDurations(lines, false).Keys <= {"all"}
  {
    if lines != [] {
      UnsplitOnlyAll(lines[..|lines| - 1]);
    }
  }

  /** With `split`, each other key holds the durations of exactly the
      lines with that normalised path, in file order. */
  lemma {:induction false} SplitByPath(lines: seq<string>, path: string)
    requires path != "all"
    ensures path in SplitDurations(lines, true) <==> PathDurations(lines, path) != []
    ensures path in SplitDurations(lines, true) ==> SplitDurations(lines, true)[path] == PathDurations(lines, path)
  {
    if lines != [] {
      SplitByPath(lines[..|lines| - 1], path);
    }
  }

  // ---------------------------------------------------------------------
  // The per-path lists add up to `"all"`

  predicate Distinct(paths: seq<string>) {
    forall i, j :: 0 <= i < j < |paths| ==> paths[i] != paths[j]
  }

  /** The total length of the per-path lists for `paths`. */
  function SumOver(lines: seq<string>, paths: seq<string>): nat {
    if paths == [] then 0 else |PathDurations(lines, paths[0])| + SumOver(lines, paths[1..])
  }

  /** How often `q` appears in `paths`. */
  function Occurrences(paths: seq<string>, q: string): (n: nat)
    ensures n == 0 <==> q !in paths
  {
    if paths == [] then 0 else (if paths[0] == q then 1 else 0) + Occurrences(paths[1..], q)
  }

  lemma {:induction false} DistinctOnce(paths: seq<string>, q: string)
    requires Distinct(paths) && q in paths
    ensures Occurrences(paths, q) == 1
  {
    if paths[0] == q {
      assert q !in paths[1..] by {
        forall j | 0 <= j < |paths| - 1 ensures paths[1..][j] != q {
          assert paths[1..][j] == paths[j + 1];
        }
      }
    } else {
      DistinctOnce(paths[1..], q);
    }
  }

  /** The normalised path of an access line. */
  function PathOf(line: string): Option<string> {
    match ParseResponse(line)
    case None => None
    case Some(r) => Some(Normalise(r.request))
  }

  /** One more line adds one to the list of its own path and nothing to
      the others. */
  lemma {:induction false} SumOverStep(lines: seq<string>, paths: seq<string>)
    requires lines != []
    ensures SumOver(lines, paths) == SumOver(lines[..|lines| - 1], paths)
              + match PathOf(lines[|lines| - 1]) case None => 0 case Some(q) => Occurrences(paths, q)
  {
    if paths != [] {
      SumOverStep(lines, paths[1..]);
    }
  }

  /** `len(durations['all'])` is the sum of the lengths of the per-path
      lists, when every path is listed once and none is `all`. */
  lemma {:induction false} CountsAddUp(lines: seq<string>, paths: seq<string>)
    requires Distinct(paths)
    requires forall k :: 0 <= k < |lines| && PathOf(lines[k]).Some? ==> PathOf(lines[k]).value in paths
    ensures |Durations(lines)| == SumOver(lines, paths)
  {
    if lines == [] {
      if paths != [] {
        CountsAddUp(lines, paths[1..]);
      }
    } else {
      var init := lines[..|lines| - 1];
      forall k | 0 <= k < |init| && PathOf(init[k]).Some? ensures PathOf(init[k]).value in paths {
        assert init[k] == lines[k];
      }
      CountsAddUp(init, paths);
      SumOverStep(lines, paths);
      var last := lines[|lines| - 1];
      if PathOf(last).Some? {
        DistinctOnce(paths, PathOf(last).value);
      }
    }
  }

  /** Every access line leaves its duration in the list of its path. */
  lemma {:induction false} PathListed(lines: seq<string>, k: nat)
    requires k < |lines| && PathOf(lines[k]).Some?
    ensures PathDurations(lines, PathOf(lines[k]).value) != []
  {
    var init := lines[..|lines| - 1];
    if k < |init| {
      assert init[k] == lines[k];
      PathListed(init, k);
    }
  }

  /** The lengths of the lists a map holds under `paths`. */
  function SumLengths(m: map<string, seq<nat>>, paths: seq<string>): nat {
    if paths == [] then 0 else (if paths[0] in m then |m[paths[0]]| else 0) + SumLengths(m, paths[1..])
  }

  lemma {:induction false} SumLengthsOfSplit(lines: seq<string>, paths: seq<string>)
    requires "all" !in paths
    ensures SumLengths(SplitDurations(lines, true), paths) == SumOver(lines, paths)
  {
    if paths != [] {
      SplitByPath(lines, paths[0]);
      SumLengthsOfSplit(lines, paths[1..]);
    }
  }

  /** With `split`, the path of every access line is a key. */
  lemma {:induction false} MatchedPathIsKey(lines: seq<string>, k: nat)
    requires NoAllPath(lines) && k < |lines| && PathOf(lines[k]).Some?
    ensures PathOf(lines[k]).value in SplitDurations(lines, true).Keys - {"all"}
  {
    var q := PathOf(lines[k]).value;
    PathListed(lines, k);
    SplitByPath(lines, q);
  }

  /** The same count on the dictionary `get_split_durations` returns:
      `'all'` is as long as all the other lists together. */
  lemma {:induction false} AllIsSumOfPaths(lines: seq<string>, paths: seq<string>)
    requires NoAllPath(lines) && Distinct(paths)
    requires (set p | p in paths) == SplitDurations(lines, true).Keys - {"all"}
    ensures var m := SplitDurations(lines, true);
            (if "all" in m then |m["all"]| else 0) == SumLengths(m, paths)
  {
    AllKeyPresent(lines, true);
    AllHoldsEveryDuration(lines, true);
    SumLengthsOfSplit(lines, paths);
    forall k | 0 <= k < |lines| && PathOf(lines[k]).Some? ensures PathOf(lines[k]).value in paths {
      MatchedPathIsKey(lines, k);
    }
    CountsAddUp(lines, paths);
  }
}
