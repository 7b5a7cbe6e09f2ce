/** Exception clustering: the EXCEPTION entries of a structured log grouped
    by their exception text, largest cluster first. */
module Exceptions {
  import opened Wrappers
  import opened Text
  import opened StructuredLog

  /** What clusters are ordered by: their size, then their text. */
  datatype ClusterKey = ClusterKey(size: nat, text: string)

  /** `ExceptionEntry.__lt__`: the smaller cluster is less; on equal size
      the text decides. */
  predicate KeyLess(a: ClusterKey, b: ClusterKey) {
    if a.size == b.size then LexLess(a.text, b.text) else a.size < b.size
  }

  lemma {:induction false} KeyLessIrreflexive(a: ClusterKey)
    ensures !KeyLess(a, a)
  {
    LexLessIrreflexive(a.text);
  }

  lemma {:induction false} KeyLessTransitive(a: ClusterKey, b: ClusterKey, c: ClusterKey)
    requires KeyLess(a, b) && KeyLess(b, c)
    ensures KeyLess(a, c)
  {
    if a.size == b.size == c.size {
      LexLessTransitive(a.text, b.text, c.text);
    }
  }

  /** Two different keys are always ordered one way or the other: on
      clusters with distinct texts the comparison is a strict total order. */
  lemma {:induction false} KeyLessTotal(a: ClusterKey, b: ClusterKey)
    requires a != b
    ensures KeyLess(a, b) || KeyLess(b, a)
  {
    if a.size == b.size {
      LexLessTotal(a.text, b.text);
    }
  }

  lemma {:induction false} KeyLessAsymmetric(a: ClusterKey, b: ClusterKey)
    requires KeyLess(a, b)
    ensures !KeyLess(b, a)
  {
    if a.size == b.size {
      LexLessAsymmetric(a.text, b.text);
    }
  }

  /** "Not less" is transitive. */
  lemma {:induction false} KeyLeqTransitive(a: ClusterKey, b: ClusterKey, c: ClusterKey)
    requires !KeyLess(a, b) && !KeyLess(b, c)
    ensures !KeyLess(a, c)
  {
    if KeyLess(a, c) && a != b {
      KeyLessTotal(a, b);
      KeyLessTransitive(b, a, c);
    }
  }

  /** The log entries that share one exception text. */
  class ExceptionEntry {
    var logEntries: seq<LogEntry>
    const text: string

    constructor (entry: LogEntry)
      ensures logEntries == [entry] && text == ExceptionText(entry.Value())
    {
      var t := entry.GetException();
      logEntries := [entry];
      text := t;
    }

    function Key(): ClusterKey
      reads this
    {
      ClusterKey(|logEntries|, text)
    }

    method AddLog(entry: LogEntry)
      modifies this`logEntries
      ensures logEntries == old(logEntries) + [entry]
    {
      logEntries := logEntries + [entry];
    }
  }

  // ---------------------------------------------------------------------
  // The clusters get_exceptions builds, described on the input

  /** What an entry contributes to the clustering: its exception text when
      it is an EXCEPTION entry, nothing otherwise. */
  ghost function Tag(e: LogEntry): Option<string>
    reads e
  {
    if e.kind == Exception then Some(ExceptionText(e.Value())) else None
  }

  ghost function Tags(input: seq<LogEntry>): (r: seq<Option<string>>)
    reads input
    ensures |r| == |input| && forall k :: 0 <= k < |input| ==> r[k] == Tag(input[k])
  {
    seq(|input|, k requires 0 <= k < |input| reads input => Tag(input[k]))
  }

  /** The distinct exception texts, in the order they first occur: the
      order in which clusters are created. */
  function Texts(tags: seq<Option<string>>): seq<string>
  {
    if tags == [] then []
    else
      var init, tag := tags[..|tags| - 1], tags[|tags| - 1];
      if tag.Some? && tag.value !in Texts(init) then Texts(init) + [tag.value] else Texts(init)
  }

  /** The entries tagged with `t`, in input order. */
  function MembersOf(input: seq<LogEntry>, tags: seq<Option<string>>, t: string): seq<LogEntry>
    requires |tags| == |input|
  {
    if input == [] then []
    else
      var n := |input| - 1;
      MembersOf(input[..n], tags[..n], t) + if tags[n] == Some(t) then [input[n]] else []
  }

  /** The entries that carry a tag at all: the EXCEPTION entries. */
  function Tagged(input: seq<LogEntry>, tags: seq<Option<string>>): seq<LogEntry>
    requires |tags| == |input|
  {
    if input == [] then []
    else
      var n := |input| - 1;
      Tagged(input[..n], tags[..n]) + if tags[n].Some? then [input[n]] else []
  }

  /** Cluster texts are pairwise distinct, a text has a cluster exactly
      when some entry carries it, and then the cluster is not empty. */
  lemma {:induction false} TextsDistinct(input: seq<LogEntry>, tags: seq<Option<string>>)
    requires |tags| == |input|
    ensures forall i, j :: 0 <= i < j < |Texts(tags)| ==> Texts(tags)[i] != Texts(tags)[j]
    ensures forall t :: t in Texts(tags) <==> Some(t) in tags
    ensures forall t :: t in Texts(tags) <==> |MembersOf(input, tags, t)| > 0
  {
    if input != [] {
      var n := |input| - 1;
      TextsDistinct(input[..n], tags[..n]);
      assert tags == tags[..n] + [tags[n]];
    }
  }

  /** Every member of the cluster of `t` is an entry tagged `t`. */
  lemma {:induction false} MembersCarryText(input: seq<LogEntry>, tags: seq<Option<string>>, t: string)
    requires |tags| == |input|
    ensures forall e :: e in MembersOf(input, tags, t) ==>
              exists k :: 0 <= k < |input| && input[k] == e && tags[k] == Some(t)
  {
    if input != [] {
      var n := |input| - 1;
      MembersCarryText(input[..n], tags[..n], t);
      forall e | e in MembersOf(input, tags, t)
        ensures exists k :: 0 <= k < |input| && input[k] == e && tags[k] == Some(t)
      {
        if e in MembersOf(input[..n], tags[..n], t) {
          var k :| 0 <= k < n && input[..n][k] == e && tags[..n][k] == Some(t);
          assert input[k] == e && tags[k] == Some(t);
        }
      }
    }
  }

  function SizeSum(input: seq<LogEntry>, tags: seq<Option<string>>, texts: seq<string>): nat
    requires |tags| == |input|
  {
    if texts == [] then 0
    else SizeSum(input, tags, texts[..|texts| - 1]) + |MembersOf(input, tags, texts[|texts| - 1])|
  }

  /** One more entry adds one member to the cluster of its own text and
      leaves every other cluster alone. */
  lemma {:induction false} SizeSumStep(input: seq<LogEntry>, tags: seq<Option<string>>, texts: seq<string>)
    requires |tags| == |input| && input != []
    requires forall i, j :: 0 <= i < j < |texts| ==> texts[i] != texts[j]
    ensures var n := |input| - 1;
            SizeSum(input, tags, texts)
            == SizeSum(input[..n], tags[..n], texts) + if tags[n].Some? && tags[n].value in texts then 1 else 0
  {
    if texts != [] {
      var n := |input| - 1;
      var ts, t := texts[..|texts| - 1], texts[|texts| - 1];
      SizeSumStep(input, tags, ts);
      assert texts == ts + [t];
      var hit := tags[n] == Some(t);
      assert MembersOf(input, tags, t) == MembersOf(input[..n], tags[..n], t) + if hit then [input[n]] else [];
      assert hit ==> tags[n].value !in ts;
    }
  }

  /** Every EXCEPTION entry lands in exactly one cluster: the cluster sizes
      add up to the number of EXCEPTION entries. */
  lemma {:induction false} ClusterSizesAddUp(input: seq<LogEntry>, tags: seq<Option<string>>)
    requires |tags| == |input|
    ensures SizeSum(input, tags, Texts(tags)) == |Tagged(input, tags)|
  {
    if input != [] {
      var n := |input| - 1;
      var init, itags := input[..n], tags[..n];
      var ts := Texts(itags);
      var isNew := tags[n].Some? && tags[n].value !in ts;
      assert Texts(tags) == if isNew then ts + [tags[n].value] else ts;
      ClusterSizesAddUp(init, itags);
      TextsDistinct(input, tags);
      TextsDistinct(init, itags);
      if isNew {
        var v := tags[n].value;
        SizeSumStep(input, tags, Texts(tags));
        assert (ts + [v])[..|ts|] == ts;
        assert SizeSum(init, itags, ts + [v]) == SizeSum(init, itags, ts) + |MembersOf(init, itags, v)|;
      } else {
        SizeSumStep(input, tags, ts);
      }
    }
  }

  /** The first member of a cluster is the entry that created it: the
      first entry with that text. */
  lemma {:induction false} FirstMemberCreates(input: seq<LogEntry>, tags: seq<Option<string>>, t: string, i: nat)
    requires |tags| == |input|
    requires i < |input| && tags[i] == Some(t)
    requires forall j :: 0 <= j < i ==> tags[j] != Some(t)
    ensures |MembersOf(input, tags, t)| > 0 && MembersOf(input, tags, t)[0] == input[i]
  {
    var n := |input| - 1;
    if i < n {
      FirstMemberCreates(input[..n], tags[..n], t, i);
    } else {
      NoMembersBefore(input[..n], tags[..n], t);
    }
  }

  lemma {:induction false} NoMembersBefore(input: seq<LogEntry>, tags: seq<Option<string>>, t: string)
    requires |tags| == |input|
    requires forall j :: 0 <= j < |input| ==> tags[j] != Some(t)
    ensures MembersOf(input, tags, t) == []
  {
    if input != [] {
      var n := |input| - 1;
      NoMembersBefore(input[..n], tags[..n], t);
    }
  }

  // ---------------------------------------------------------------------
  // sorted(..., reverse=True)

  /** A cluster with the key `__lt__` reads from it. Nothing changes while
      the list is sorted, so the key is read once. */
  datatype Keyed = Keyed(key: ClusterKey, cluster: ExceptionEntry)

  /** No element is less than a later one. */
  predicate Descending(s: seq<Keyed>) {
    forall i, j :: 0 <= i < j < |s| ==> !KeyLess(s[i].key, s[j].key)
  }

  /** Every element is less than each one before it. */
  predicate StrictlyDescendingKeys(s: seq<Keyed>) {
    forall i, j :: 0 <= i < j < |s| ==> KeyLess(s[j].key, s[i].key)
  }

  predicate DistinctTexts(s: seq<Keyed>) {
    forall i, j :: 0 <= i < j < |s| ==> s[i].key.text != s[j].key.text
  }

  /** Places `x` after every element not less than it. */
  function InsertDescending(sorted: seq<Keyed>, x: Keyed): (r: seq<Keyed>)
    ensures |r| == |sorted| + 1
  {
    if sorted == [] || !KeyLess(sorted[|sorted| - 1].key, x.key) then sorted + [x]
    else InsertDescending(sorted[..|sorted| - 1], x) + [sorted[|sorted| - 1]]
  }

  /** Python's `sorted(clusters, reverse=True)`: a stable sort on the
      reversed comparison. */
  function SortDescending(s: seq<Keyed>): (r: seq<Keyed>)
    ensures |r| == |s|
  {
    if s == [] then []
    else InsertDescending(SortDescending(s[..|s| - 1]), s[|s| - 1])
  }

  /** Inserting adds `x` and loses nothing. */
  lemma {:induction false} InsertIsPermutation(sorted: seq<Keyed>, x: Keyed)
    ensures multiset(InsertDescending(sorted, x)) == multiset(sorted) + multiset{x}
  {
    if sorted != [] && KeyLess(sorted[|sorted| - 1].key, x.key) {
      var init := sorted[..|sorted| - 1];
      InsertIsPermutation(init, x);
      assert sorted == init + [sorted[|sorted| - 1]];
    }
  }

  /** The sort is a permutation of its input. */
  lemma {:induction false} SortIsPermutation(s: seq<Keyed>)
    ensures multiset(SortDescending(s)) == multiset(s)
  {
    if s != [] {
      SortIsPermutation(s[..|s| - 1]);
      InsertIsPermutation(SortDescending(s[..|s| - 1]), s[|s| - 1]);
      assert s == s[..|s| - 1] + [s[|s| - 1]];
    }
  }

  lemma {:induction false} InsertKeepsDescending(sorted: seq<Keyed>, x: Keyed)
    requires Descending(sorted)
    ensures Descending(InsertDescending(sorted, x))
  {
    if sorted != [] && KeyLess(sorted[|sorted| - 1].key, x.key) {
      var init := sorted[..|sorted| - 1];
      var last := sorted[|sorted| - 1];
      InsertKeepsDescending(init, x);
      InsertIsPermutation(init, x);
      var r := InsertDescending(init, x);
      forall y | y in r ensures !KeyLess(y.key, last.key) {
        assert y in multiset(r);
        if y == x {
          KeyLessAsymmetric(last.key, x.key);
        } else {
          assert y in multiset(init);
          var i :| 0 <= i < |init| && init[i] == y;
          assert sorted[i] == y;
        }
      }
      assert InsertDescending(sorted, x) == r + [last];
    } else if sorted != [] {
      forall i, j | 0 <= i < j < |sorted| + 1
        ensures !KeyLess((sorted + [x])[i].key, (sorted + [x])[j].key)
      {
        if j == |sorted| && i < |sorted| - 1 {
          KeyLeqTransitive(sorted[i].key, sorted[|sorted| - 1].key, x.key);
        }
      }
    }
  }

  lemma {:induction false} SortIsDescending(s: seq<Keyed>)
    ensures Descending(SortDescending(s))
  {
    if s != [] {
      SortIsDescending(s[..|s| - 1]);
      InsertKeepsDescending(SortDescending(s[..|s| - 1]), s[|s| - 1]);
    }
  }

  lemma {:induction false} InsertKeepsDistinct(sorted: seq<Keyed>, x: Keyed)
    requires DistinctTexts(sorted) && forall y :: y in sorted ==> y.key.text != x.key.text
    ensures DistinctTexts(InsertDescending(sorted, x))
  {
    if sorted != [] && KeyLess(sorted[|sorted| - 1].key, x.key) {
      var init := sorted[..|sorted| - 1];
      var last := sorted[|sorted| - 1];
      InsertKeepsDistinct(init, x);
      InsertIsPermutation(init, x);
      var r := InsertDescending(init, x);
      forall y | y in r ensures y.key.text != last.key.text {
        assert y in multiset(r);
        if y != x {
          assert y in multiset(init);
          var i :| 0 <= i < |init| && init[i] == y;
          assert sorted[i] == y;
        }
      }
      assert InsertDescending(sorted, x) == r + [last];
    }
  }

  lemma {:induction false} SortKeepsDistinct(s: seq<Keyed>)
    requires DistinctTexts(s)
    ensures DistinctTexts(SortDescending(s))
  {
    if s != [] {
      var init := s[..|s| - 1];
      SortKeepsDistinct(init);
      SortIsPermutation(init);
      forall y | y in SortDescending(init) ensures y.key.text != s[|s| - 1].key.text {
        assert y in multiset(SortDescending(init));
        var i :| 0 <= i < |init| && init[i] == y;
      }
      InsertKeepsDistinct(SortDescending(init), s[|s| - 1]);
    }
  }

  /** With pairwise distinct texts no two clusters tie, so the order is
      strictly descending. */
  lemma {:induction false} StrictlyDescending(s: seq<Keyed>)
    requires Descending(s) && DistinctTexts(s)
    ensures StrictlyDescendingKeys(s)
  {
    forall i, j | 0 <= i < j < |s| ensures KeyLess(s[j].key, s[i].key) {
      KeyLessTotal(s[i].key, s[j].key);
    }
  }

  /** The result is deterministic: two strictly descending arrangements of
      the same clusters are the same list. */
  lemma {:induction false} StrictOrderUnique(a: seq<Keyed>, b: seq<Keyed>)
    requires multiset(a) == multiset(b)
    requires StrictlyDescendingKeys(a) && StrictlyDescendingKeys(b)
    ensures a == b
  {
    if a != [] {
      assert a[0] in multiset(b) && b[0] in multiset(a);
      HeadIsGreatest(a, b[0]);
      HeadIsGreatest(b, a[0]);
      if a[0] != b[0] {
        KeyLessAsymmetric(b[0].key, a[0].key);
      }
      DropHead(a);
      DropHead(b);
      StrictOrderUnique(a[1..], b[1..]);
      assert a == [a[0]] + a[1..] && b == [b[0]] + b[1..];
    }
  }

  /** Every other element of a strictly descending list is below its head. */
  lemma {:induction false} HeadIsGreatest(s: seq<Keyed>, x: Keyed)
    requires StrictlyDescendingKeys(s) && x in multiset(s)
    ensures x == s[0] || KeyLess(x.key, s[0].key)
  {
    var k :| 0 <= k < |s| && s[k] == x;
    if k > 0 {
      assert KeyLess(s[k].key, s[0].key);
    }
  }

  /** The tail keeps the order and holds the rest of the elements. */
  lemma {:induction false} DropHead(s: seq<Keyed>)
    requires s != [] && StrictlyDescendingKeys(s)
    ensures StrictlyDescendingKeys(s[1..])
    ensures multiset(s[1..]) == multiset(s) - multiset{s[0]}
  {
    assert s == [s[0]] + s[1..];
    forall i, j | 0 <= i < j < |s| - 1 ensures KeyLess(s[1..][j].key, s[1..][i].key) {
      assert s[1..][j] == s[j + 1] && s[1..][i] == s[i + 1];
    }
  }

  // ---------------------------------------------------------------------
  // get_exceptions

  /** One more entry: the texts gain its text if it is new, and only the
      cluster of its own text gains it. */
  lemma {:induction false} PrefixStep(input: seq<LogEntry>, tags: seq<Option<string>>, i: nat)
    requires |tags| == |input| && i < |input|
    ensures Texts(tags[..i + 1])
            == if tags[i].Some? && tags[i].value !in Texts(tags[..i]) then Texts(tags[..i]) + [tags[i].value] else Texts(tags[..i])
    ensures forall t :: MembersOf(input[..i + 1], tags[..i + 1], t)
                        == MembersOf(input[..i], tags[..i], t) + if tags[i] == Some(t) then [input[i]] else []
  {
    assert input[..i + 1][..i] == input[..i];
    assert tags[..i + 1][..i] == tags[..i];
  }

  /** The sort keeps the clusters and, since their texts are distinct,
      orders them strictly. */
  lemma {:induction false} SortFacts(keyed: seq<Keyed>)
    requires DistinctTexts(keyed)
    ensures var sorted := SortDescending(keyed);
            && |sorted| == |keyed|
            && (forall x :: x in sorted <==> x in keyed)
            && DistinctTexts(sorted)
            && StrictlyDescendingKeys(sorted)
  {
    var sorted := SortDescending(keyed);
    SortIsDescending(keyed);
    SortKeepsDistinct(keyed);
    SortIsPermutation(keyed);
    StrictlyDescending(sorted);
    assert |sorted| == |multiset(sorted)| == |multiset(keyed)| == |keyed|;
    forall x ensures x in sorted <==> x in keyed {
      assert x in sorted <==> x in multiset(sorted);
      assert x in keyed <==> x in multiset(keyed);
    }
  }

  /** Each cluster paired with its current key. */
  function WithKeys(order: seq<ExceptionEntry>): (r: seq<Keyed>)
    reads set c | c in order
    ensures |r| == |order|
    ensures forall k :: 0 <= k < |order| ==> r[k].cluster == order[k] && r[k].key == order[k].Key()
  {
    if order == [] then [] else WithKeys(order[..|order| - 1]) + [Keyed(order[|order| - 1].Key(), order[|order| - 1])]
  }

  function Unkeyed(s: seq<Keyed>): (r: seq<ExceptionEntry>)
    ensures |r| == |s| && forall k :: 0 <= k < |s| ==> r[k] == s[k].cluster
  {
    if s == [] then [] else Unkeyed(s[..|s| - 1]) + [s[|s| - 1].cluster]
  }

  /** No cluster is lost by the sort. */
  lemma {:induction false} SortKeepsClusters(keyed: seq<Keyed>)
    ensures forall k :: 0 <= k < |keyed| ==> keyed[k].cluster in Unkeyed(SortDescending(keyed))
  {
    var sorted := SortDescending(keyed);
    SortIsPermutation(keyed);
    forall k | 0 <= k < |keyed| ensures keyed[k].cluster in Unkeyed(sorted) {
      assert keyed[k] in multiset(sorted);
      var j :| 0 <= j < |sorted| && sorted[j] == keyed[k];
      assert Unkeyed(sorted)[j] == keyed[k].cluster;
    }
  }

  /** Cluster texts are pairwise distinct and every cluster is greater
      than each one after it: larger first, and on equal size the greater
      text first. */
  ghost predicate Ranked(clusters: seq<ExceptionEntry>)
    reads set c | c in clusters
  {
    forall i, j :: 0 <= i < j < |clusters| ==>
      clusters[i].text != clusters[j].text && KeyLess(clusters[j].Key(), clusters[i].Key())
  }

  /** Sorting the clusters by their keys reorders them: none is lost or
      added, and the keys are strictly descending. */
  lemma {:induction false} SortedClusters(order: seq<ExceptionEntry>)
    requires DistinctTexts(WithKeys(order))
    ensures var clusters := Unkeyed(SortDescending(WithKeys(order)));
            && |clusters| == |order|
            && (forall c :: c in clusters ==> c in order)
            && (forall k :: 0 <= k < |order| ==> order[k] in clusters)
            && Ranked(clusters)
  {
    var keyed := WithKeys(order);
    var sorted := SortDescending(keyed);
    SortFacts(keyed);
    var clusters := Unkeyed(sorted);
    forall k | 0 <= k < |clusters|
      ensures clusters[k] in order && clusters[k].Key() == sorted[k].key && clusters[k].text == sorted[k].key.text
    {
      assert sorted[k] in keyed;
    }
    SortKeepsClusters(keyed);
    forall k | 0 <= k < |order| ensures order[k] in clusters {
      assert keyed[k].cluster == order[k];
    }
  }

  /** Every text has its cluster among the reordered clusters. */
  lemma {:induction false} TextsCovered(tags: seq<Option<string>>, order: seq<ExceptionEntry>, clusters: seq<ExceptionEntry>)
    requires |order| == |Texts(tags)|
    requires forall k :: 0 <= k < |order| ==> order[k].text == Texts(tags)[k] && order[k] in clusters
    ensures forall t :: t in Texts(tags) ==> exists c :: c in clusters && c.text == t
  {
    forall t | t in Texts(tags) ensures exists c :: c in clusters && c.text == t {
      var k :| 0 <= k < |Texts(tags)| && Texts(tags)[k] == t;
      assert order[k] in clusters && order[k].text == t;
    }
  }

  /** `get_exceptions`: one cluster per distinct exception text, holding
      every EXCEPTION entry with that text in input order, the clusters
      ordered by size and then text, both descending. */
  method GetExceptions(input: seq<LogEntry>) returns (clusters: seq<ExceptionEntry>)
    ensures var tags := Tags(input);
            && |clusters| == |Texts(tags)|
            && (forall t :: t in Texts(tags) <==> exists c :: c in clusters && c.text == t)
            && (forall c :: c in clusters ==> fresh(c) && c.logEntries == MembersOf(input, tags, c.text))
    ensures Ranked(clusters)
  {
    ghost var tags := Tags(input);
    var order := Collect(input, tags);
    KeyedDistinct(input, tags, order);
    clusters := Unkeyed(SortDescending(WithKeys(order)));
    SortedClusters(order);
    TextsCovered(tags, order, clusters);
  }

  /** The bookkeeping of the loop of `get_exceptions` after the first `i`
      tags: `order` lists the dictionary's values in insertion order, one
      cluster per text seen so far. */
  ghost predicate Indexed(tags: seq<Option<string>>, i: nat,
                          byText: map<string, ExceptionEntry>, order: seq<ExceptionEntry>)
  {
    && i <= |tags|
    && |order| == |Texts(tags[..i])|
    && (forall k :: 0 <= k < |order| ==> order[k].text == Texts(tags[..i])[k])
    && (forall t :: t in byText <==> t in Texts(tags[..i]))
    && (forall t :: t in byText ==> byText[t] in order && byText[t].text == t)
    && (forall c :: c in order ==> c.text in byText && byText[c.text] == c)
  }

  /** The clusters, one per text, carry distinct texts. */
  lemma {:induction false} KeyedDistinct(input: seq<LogEntry>, tags: seq<Option<string>>, order: seq<ExceptionEntry>)
    requires |tags| == |input| && |order| == |Texts(tags)|
    requires forall k :: 0 <= k < |order| ==> order[k].text == Texts(tags)[k]
    ensures DistinctTexts(WithKeys(order))
  {
    TextsDistinct(input, tags);
  }

  /** The state of the loop of `get_exceptions` after the first `i`
      entries: the bookkeeping above, and each cluster holding its members
      so far. */
  ghost predicate Clustered(input: seq<LogEntry>, tags: seq<Option<string>>, i: nat,
                            byText: map<string, ExceptionEntry>, order: seq<ExceptionEntry>)
    reads set c | c in order
  {
    && |tags| == |input|
    && Indexed(tags, i, byText, order)
    && (forall c :: c in order ==> c.logEntries == MembersOf(input[..i], tags[..i], c.text))
  }

  /** An entry that opens no cluster leaves the bookkeeping alone. */
  lemma {:induction false} IndexedKept(tags: seq<Option<string>>, i: nat,
                                       byText: map<string, ExceptionEntry>, order: seq<ExceptionEntry>)
    requires Indexed(tags, i, byText, order)
    requires i < |tags| && (tags[i].Some? ==> tags[i].value in byText)
    ensures Indexed(tags, i + 1, byText, order)
  {
    assert tags[..i + 1][..i] == tags[..i];
  }

  /** An entry with a new text appends its cluster to the dictionary. */
  lemma {:induction false} IndexedGrows(tags: seq<Option<string>>, i: nat,
                                        byText: map<string, ExceptionEntry>, order: seq<ExceptionEntry>, c: ExceptionEntry)
    requires Indexed(tags, i, byText, order)
    requires i < |tags| && tags[i].Some? && tags[i].value !in byText
    requires c !in order && c.text == tags[i].value
    ensures Indexed(tags, i + 1, byText[c.text := c], order + [c])
  {
    assert tags[..i + 1][..i] == tags[..i];
    var order' := order + [c];
    forall k | 0 <= k < |order'| ensures order'[k].text == Texts(tags[..i + 1])[k] {
      if k < |order| {
        assert order'[k] == order[k];
      }
    }
  }

  /** A text that no entry carries has no members. */
  lemma {:induction false} NoMembers(input: seq<LogEntry>, tags: seq<Option<string>>, t: string)
    requires |tags| == |input| && t !in Texts(tags)
    ensures MembersOf(input, tags, t) == []
  {
    TextsDistinct(input, tags);
  }

  /** The loop of `get_exceptions`: the clusters in the order the
      dictionary created them. */
  method Collect(input: seq<LogEntry>, ghost tags: seq<Option<string>>) returns (order: seq<ExceptionEntry>)
    requires tags == Tags(input)
    ensures fresh(set c | c in order)
    ensures |order| == |Texts(tags)|
    ensures forall k :: 0 <= k < |order| ==> order[k].text == Texts(tags)[k]
    ensures forall c :: c in order ==> c.logEntries == MembersOf(input, tags, c.text)
  {
    var byText: map<string, ExceptionEntry> := map[];
    order := [];
    for i := 0 to |input|
      invariant fresh(set c | c in order)
      invariant Clustered(input, tags, i, byText, order)
    {
      var e := input[i];
      if e.kind == Exception {
        var text := e.GetException();
        assert tags[i] == Some(text);
        if text in byText {
          AddToCluster(input, tags, i, text, byText, order);
        } else {
          var c := new ExceptionEntry(e);
          NewCluster(input, tags, i, byText, order, c);
          byText := byText[text := c];
          order := order + [c];
        }
      } else {
        assert tags[i] == None;
        IndexedKept(tags, i, byText, order);
        PrefixStep(input, tags, i);
      }
    }
    assert input[..|input|] == input && tags[..|input|] == tags;
  }

  /** An EXCEPTION entry whose text already has a cluster joins it. */
  method AddToCluster(input: seq<LogEntry>, ghost tags: seq<Option<string>>, i: nat, text: string,
                      byText: map<string, ExceptionEntry>, order: seq<ExceptionEntry>)
    requires Clustered(input, tags, i, byText, order)
    requires i < |input| && tags[i] == Some(text) && text in byText
    modifies byText[text]
    ensures Clustered(input, tags, i + 1, byText, order)
  {
    var c := byText[text];
    c.AddLog(input[i]);
    IndexedKept(tags, i, byText, order);
    PrefixStep(input, tags, i);
    forall d | d in order
      ensures d.logEntries == MembersOf(input[..i + 1], tags[..i + 1], d.text)
    {
      if d != c {
        assert d.text != tags[i].value;
      }
    }
  }

  /** An EXCEPTION entry with a new text: the fresh cluster `c`, holding
      just that entry, is added to the dictionary. */
  lemma {:induction false} NewCluster(input: seq<LogEntry>, tags: seq<Option<string>>, i: nat,
                   byText: map<string, ExceptionEntry>, order: seq<ExceptionEntry>, c: ExceptionEntry)
    requires Clustered(input, tags, i, byText, order)
    requires i < |input| && tags[i].Some? && tags[i].value !in byText
    requires c !in order && c.logEntries == [input[i]] && c.text == tags[i].value
    ensures Clustered(input, tags, i + 1, byText[c.text := c], order + [c])
  {
    var text := tags[i].value;
    IndexedGrows(tags, i, byText, order, c);
    PrefixStep(input, tags, i);
    forall d | d in order + [c]
      ensures d.logEntries == MembersOf(input[..i + 1], tags[..i + 1], d.text)
    {
      if d == c {
        NoMembers(input[..i], tags[..i], text);
      }
    }
  }
}
