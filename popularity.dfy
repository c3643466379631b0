/**
 * The `/popular-studies/` handler (backend/app/main.py:203-223): stored
 * studies are grouped under a canonical key (method, dependent metric, base
 * metric, sorted metric list), each group is counted, and the `top_n` largest
 * groups are returned with their counts.
 *
 * `collections.Counter` is a dictionary that remembers the order in which
 * keys were first inserted; `most_common(n)` orders its items by count,
 * largest first, keeps insertion order among equal counts, and returns the
 * first `n` of them (none when `n <= 0`).
 */
module Popularity {
  import opened Common
  import Strings

  /** The attributes of a stored study that the handler reads. */
  datatype StudyRecord = StudyRecord(
    methodName: string,
    dependentMetric: string,
    baseMetric: Option<string>,
    metrics: Option<seq<string>>)

  /**
   * The group key. The handler serialises these four fields with
   * `json.dumps(..., sort_keys=True)` and reads them back with `json.loads`;
   * the serialisation is one-to-one, so the key is modelled by its fields.
   */
  datatype StudyKey = StudyKey(
    methodName: string,
    dependentMetric: string,
    baseMetric: Option<string>,
    controlMetrics: seq<string>)

  /** One item of the counter, and one element of the answer. */
  datatype Entry = Entry(key: StudyKey, count: nat)

  /** `r.metrics or []`. */
  function MetricsOrEmpty(r: StudyRecord): seq<string>
  {
    if r.metrics.Some? then r.metrics.value else []
  }

  function KeyOf(r: StudyRecord): StudyKey
  {
    StudyKey(r.methodName, r.dependentMetric, r.baseMetric, Strings.Sort(MetricsOrEmpty(r)))
  }

  /** Two studies share a group exactly when they agree on method, dependent metric and base metric, and list the same metrics in any order. */
  lemma SameGroup(r1: StudyRecord, r2: StudyRecord)
    ensures KeyOf(r1) == KeyOf(r2) <==>
      r1.methodName == r2.methodName && r1.dependentMetric == r2.dependentMetric && r1.baseMetric == r2.baseMetric
      && multiset(MetricsOrEmpty(r1)) == multiset(MetricsOrEmpty(r2))
  {
    Strings.SortCanonical(MetricsOrEmpty(r1), MetricsOrEmpty(r2));
  }

  function KeysOf(records: seq<StudyRecord>): (keys: seq<StudyKey>)
    ensures |keys| == |records|
  {
    if records == [] then [] else KeysOf(records[..|records| - 1]) + [KeyOf(records[|records| - 1])]
  }

  /** The key of the record at each position. */
  lemma {:induction false} KeysOfAt(records: seq<StudyRecord>, i: nat)
    requires i < |records|
    ensures KeysOf(records)[i] == KeyOf(records[i])
  {
    var init := records[..|records| - 1];
    if i < |init| {
      KeysOfAt(init, i);
    }
  }

  /** The keys of one more record are the keys so far and that record's key. */
  lemma KeysOfSnoc(records: seq<StudyRecord>, i: nat)
    requires i < |records|
    ensures KeysOf(records[..i + 1]) == KeysOf(records[..i]) + [KeyOf(records[i])]
  {
    assert records[..i + 1][..i] == records[..i];
  }

  predicate Distinct(s: seq<StudyKey>)
  {
    forall i, j :: 0 <= i < j < |s| ==> s[i] != s[j]
  }

  /** How many of `keys` equal `k`. */
  function Occurrences(keys: seq<StudyKey>, k: StudyKey): (n: nat)
    ensures n <= |keys|
    ensures n > 0 <==> k in keys
  {
    if keys == [] then 0
    else
      var init := keys[..|keys| - 1];
      assert keys == init + [keys[|keys| - 1]];
      Occurrences(init, k) + if keys[|keys| - 1] == k then 1 else 0
  }

  /** The keys in the order the counter first meets them, each once. */
  function FirstSeen(keys: seq<StudyKey>): (r: seq<StudyKey>)
    ensures Distinct(r)
    ensures forall k :: k in r <==> k in keys
  {
    if keys == [] then []
    else
      var init := keys[..|keys| - 1];
      var last := keys[|keys| - 1];
      assert keys == init + [last];
      var seen := FirstSeen(init);
      if last in seen then seen else seen + [last]
  }

  /** The counter's items after the loop, in insertion order. */
  function Tallied(keys: seq<StudyKey>): (items: seq<Entry>)
    ensures |items| == |FirstSeen(keys)|
    ensures forall j :: 0 <= j < |items| ==> items[j] == Entry(FirstSeen(keys)[j], Occurrences(keys, FirstSeen(keys)[j]))
  {
    CountEach(FirstSeen(keys), keys)
  }

  /** Each of `seen` paired with its number of occurrences in `keys`. */
  function CountEach(seen: seq<StudyKey>, keys: seq<StudyKey>): (items: seq<Entry>)
    ensures |items| == |seen|
    ensures forall j :: 0 <= j < |items| ==> items[j] == Entry(seen[j], Occurrences(keys, seen[j]))
  {
    if seen == [] then []
    else [Entry(seen[0], Occurrences(keys, seen[0]))] + CountEach(seen[1..], keys)
  }

  /** The counter read out in key order. */
  function Entries(order: seq<StudyKey>, counts: map<StudyKey, nat>): (items: seq<Entry>)
    requires forall k :: k in order ==> k in counts
    ensures |items| == |order|
  {
    seq(|order|, j requires 0 <= j < |order| => Entry(order[j], counts[order[j]]))
  }

  function Sum(s: seq<Entry>): nat
  {
    if s == [] then 0 else s[0].count + Sum(s[1..])
  }

  lemma {:induction false} SumConcat(a: seq<Entry>, b: seq<Entry>)
    ensures Sum(a + b) == Sum(a) + Sum(b)
  {
    if a == [] {
      assert a + b == b;
    } else {
      assert (a + b)[1..] == a[1..] + b;
      SumConcat(a[1..], b);
    }
  }

  /** Adding one to the count of one key that occurs once among distinct keys adds one to the total. */
  lemma {:induction false} SumBump(a: seq<Entry>, b: seq<Entry>, x: StudyKey)
    requires |a| == |b|
    requires forall i, j :: 0 <= i < j < |a| ==> a[i].key != a[j].key
    requires forall j :: 0 <= j < |a| ==> b[j].count == a[j].count + (if a[j].key == x then 1 else 0)
    ensures Sum(b) == Sum(a) + (if exists j :: 0 <= j < |a| && a[j].key == x then 1 else 0)
  {
    if a != [] {
      SumBump(a[1..], b[1..], x);
      if a[0].key == x {
        assert !exists j :: 0 <= j < |a[1..]| && a[1..][j].key == x by {
          forall j | 0 <= j < |a[1..]| ensures a[1..][j].key != x {
            assert a[1..][j] == a[j + 1];
          }
        }
      } else {
        if exists j :: 0 <= j < |a| && a[j].key == x {
          var j :| 0 <= j < |a| && a[j].key == x;
          assert a[1..][j - 1].key == x;
        }
        if exists j :: 0 <= j < |a[1..]| && a[1..][j].key == x {
          var j :| 0 <= j < |a[1..]| && a[1..][j].key == x;
          assert a[j + 1].key == x;
        }
      }
    }
  }

  /** Every group is counted at least once, and no group is listed twice. */
  lemma TalliedKeys(keys: seq<StudyKey>)
    ensures forall j :: 0 <= j < |Tallied(keys)| ==> Tallied(keys)[j].count >= 1
    ensures forall i, j :: 0 <= i < j < |Tallied(keys)| ==> Tallied(keys)[i].key != Tallied(keys)[j].key
  {
    var seen := FirstSeen(keys);
    forall j | 0 <= j < |seen| ensures Tallied(keys)[j].count >= 1 {
      assert seen[j] in seen;
    }
  }

  /** The counts of all groups add up to the number of records. */
  lemma {:induction false} TalliedTotal(keys: seq<StudyKey>)
    ensures Sum(Tallied(keys)) == |keys|
  {
    if keys != [] {
      var init := keys[..|keys| - 1];
      var last := keys[|keys| - 1];
      assert keys == init + [last];
      TalliedTotal(init);
      if last in FirstSeen(init) {
        TallyRepeat(init, last);
      } else {
        TallyNew(init, last);
      }
    }
  }

  /** One more record of a group already counted adds one to that group's count. */
  lemma TallyRepeat(init: seq<StudyKey>, last: StudyKey)
    requires last in FirstSeen(init)
    ensures Sum(Tallied(init + [last])) == Sum(Tallied(init)) + 1
  {
    var keys := init + [last];
    assert keys[..|keys| - 1] == init;
    var before := Tallied(init);
    var items := Tallied(keys);
    assert FirstSeen(keys) == FirstSeen(init);
    TalliedKeys(init);
    forall j | 0 <= j < |before| ensures items[j].count == before[j].count + (if before[j].key == last then 1 else 0) {
    }
    var j :| 0 <= j < |FirstSeen(init)| && FirstSeen(init)[j] == last;
    assert before[j].key == last;
    SumBump(before, items, last);
  }

  /** The first record of a new group appends that group with count one. */
  lemma TallyNew(init: seq<StudyKey>, last: StudyKey)
    requires last !in FirstSeen(init)
    ensures Sum(Tallied(init + [last])) == Sum(Tallied(init)) + 1
  {
    TallyNewItems(init, last);
    SumConcat(Tallied(init), [Entry(last, 1)]);
    assert Sum([Entry(last, 1)]) == 1;
  }

  lemma TallyNewItems(init: seq<StudyKey>, last: StudyKey)
    requires last !in FirstSeen(init)
    ensures Tallied(init + [last]) == Tallied(init) + [Entry(last, 1)]
  {
    SnocParts(init, last);
    CountEachSnoc(FirstSeen(init), last, init + [last]);
    CountEachOther(FirstSeen(init), init, last);
  }

  lemma {:induction false} CountEachSnoc(seen: seq<StudyKey>, x: StudyKey, keys: seq<StudyKey>)
    ensures CountEach(seen + [x], keys) == CountEach(seen, keys) + [Entry(x, Occurrences(keys, x))]
  {
    if seen == [] {
      assert seen + [x] == [x];
    } else {
      assert (seen + [x])[1..] == seen[1..] + [x];
      CountEachSnoc(seen[1..], x, keys);
    }
  }

  lemma {:induction false} CountEachOther(seen: seq<StudyKey>, keys: seq<StudyKey>, last: StudyKey)
    requires last !in seen
    ensures CountEach(seen, keys + [last]) == CountEach(seen, keys)
  {
    if seen != [] {
      OccurrencesOther(keys, last, seen[0]);
      CountEachOther(seen[1..], keys, last);
    }
  }

  /** Appending a key not met before: it is met once, and becomes the last key first seen. */
  lemma SnocParts(init: seq<StudyKey>, last: StudyKey)
    requires last !in FirstSeen(init)
    ensures FirstSeen(init + [last]) == FirstSeen(init) + [last]
    ensures Occurrences(init + [last], last) == 1
  {
    var keys := init + [last];
    assert keys[..|keys| - 1] == init;
  }

  lemma OccurrencesOther(init: seq<StudyKey>, last: StudyKey, k: StudyKey)
    requires k != last
    ensures Occurrences(init + [last], k) == Occurrences(init, k)
  {
    assert (init + [last])[..|init|] == init;
  }

  predicate NonIncreasing(s: seq<Entry>)
  {
    forall i, j :: 0 <= i < j < |s| ==> s[i].count >= s[j].count
  }

  /** Stable insertion, largest count first: `e` goes before the first entry it is not smaller than. */
  function InsertByCount(e: Entry, s: seq<Entry>): (r: seq<Entry>)
    ensures multiset(r) == multiset(s) + multiset{e}
    ensures Sum(r) == e.count + Sum(s)
    ensures NonIncreasing(s) ==> NonIncreasing(r)
  {
    if s == [] then [e]
    else if e.count >= s[0].count then
      assert ([e] + s)[1..] == s;
      [e] + s
    else
      var rest := InsertByCount(e, s[1..]);
      assert s == [s[0]] + s[1..];
      assert ([s[0]] + rest)[1..] == rest;
      InsertBehind(e, s, rest);
      [s[0]] + rest
  }

  lemma InsertBehind(e: Entry, s: seq<Entry>, rest: seq<Entry>)
    requires |s| > 0 && e.count < s[0].count
    requires multiset(rest) == multiset(s[1..]) + multiset{e}
    requires NonIncreasing(s[1..]) ==> NonIncreasing(rest)
    ensures NonIncreasing(s) ==> NonIncreasing([s[0]] + rest)
  {
    if NonIncreasing(s) {
      assert NonIncreasing(s[1..]) by {
        forall i, j | 0 <= i < j < |s[1..]| ensures s[1..][i].count >= s[1..][j].count {
          assert s[1..][i] == s[i + 1] && s[1..][j] == s[j + 1];
        }
      }
      forall j | 0 <= j < |rest| ensures s[0].count >= rest[j].count {
        assert rest[j] in multiset(rest);
        if rest[j] != e {
          assert rest[j] in multiset(s[1..]);
          var k :| 0 <= k < |s[1..]| && s[1..][k] == rest[j];
          assert s[k + 1] == rest[j];
        }
      }
    }
  }

  /** `sorted(items, key=count, reverse=True)`, which is stable. */
  function SortByCount(s: seq<Entry>): (r: seq<Entry>)
    ensures multiset(r) == multiset(s)
    ensures Sum(r) == Sum(s)
    ensures NonIncreasing(r)
  {
    if s == [] then []
    else
      assert s == [s[0]] + s[1..];
      InsertByCount(s[0], SortByCount(s[1..]))
  }

  function Min(a: int, b: int): int
  {
    if a <= b then a else b
  }

  /**
   * `Counter.most_common(n)`: at most `n` items, largest count first, drawn
   * from the counter, and every item left out has a count no larger than
   * any item kept.
   */
  function MostCommon(items: seq<Entry>, n: int): (r: seq<Entry>)
    ensures |r| == if n <= 0 then 0 else Min(n, |items|)
    ensures NonIncreasing(r)
    ensures multiset(r) <= multiset(items)
    ensures Sum(r) <= Sum(items)
    ensures forall e :: e in items && e !in r ==> forall j :: 0 <= j < |r| ==> e.count <= r[j].count
  {
    if n <= 0 then []
    else
      var sorted := SortByCount(items);
      assert |sorted| == |multiset(sorted)| == |multiset(items)| == |items|;
      var m := Min(n, |sorted|);
      TakeLargest(sorted, m);
      forall e | e in items ensures e in sorted {
        assert e in multiset(items);
      }
      sorted[..m]
  }

  /** A prefix of a list sorted by count: its own facts, and every entry after it is no larger than any in it. */
  lemma TakeLargest(sorted: seq<Entry>, m: nat)
    requires NonIncreasing(sorted) && m <= |sorted|
    ensures NonIncreasing(sorted[..m])
    ensures multiset(sorted[..m]) <= multiset(sorted)
    ensures Sum(sorted[..m]) <= Sum(sorted)
    ensures forall e :: e in sorted && e !in sorted[..m] ==> forall j :: 0 <= j < m ==> e.count <= sorted[..m][j].count
  {
    assert sorted == sorted[..m] + sorted[m..];
    assert multiset(sorted) == multiset(sorted[..m]) + multiset(sorted[m..]);
    SumConcat(sorted[..m], sorted[m..]);
    forall e | e in sorted && e !in sorted[..m] ensures forall j :: 0 <= j < m ==> e.count <= sorted[..m][j].count {
      assert e in multiset(sorted[m..]);
      TailBelowHead(sorted, m, e);
    }
  }

  lemma TailBelowHead(sorted: seq<Entry>, m: nat, e: Entry)
    requires NonIncreasing(sorted) && m <= |sorted|
    requires e in sorted[m..]
    ensures forall j :: 0 <= j < m ==> e.count <= sorted[..m][j].count
  {
    var k :| 0 <= k < |sorted[m..]| && sorted[m..][k] == e;
    assert sorted[m + k] == e;
  }

  /** main.py:205-223: count every record's key, then answer the `top_n` most common groups. */
  method PopularStudies(records: seq<StudyRecord>, topN: int) returns (top: seq<Entry>)
    ensures top == TopGroups(records, topN)
  {
    var order: seq<StudyKey> := [];
    var counts: map<StudyKey, nat> := map[];
    for i := 0 to |records|
      invariant Counted(KeysOf(records[..i]), order, counts)
    {
      var key := KeyOf(records[i]);
      ghost var (order0, counts0) := (order, counts);
      if key in counts {
        counts := counts[key := counts[key] + 1];
      } else {
        counts := counts[key := 1];
        order := order + [key];
      }
      CountStep(KeysOf(records[..i]), key, order0, counts0, order, counts);
      KeysOfSnoc(records, i);
    }
    assert records[..|records|] == records;
    CountedItems(KeysOf(records), order, counts);
    top := MostCommon(Entries(order, counts), topN);
  }

  /** The counter after the records `prefix`: keys in first-seen order, each mapped to its number of occurrences. */
  ghost predicate Counted(prefix: seq<StudyKey>, order: seq<StudyKey>, counts: map<StudyKey, nat>)
  {
    && order == FirstSeen(prefix)
    && (forall k :: k in counts <==> k in prefix)
    && (forall k :: k in counts ==> counts[k] == Occurrences(prefix, k))
  }

  /** `counter[key] += 1` keeps the counter in step with one more record. */
  lemma CountStep(prefix: seq<StudyKey>, key: StudyKey, order: seq<StudyKey>, counts: map<StudyKey, nat>,
                  order': seq<StudyKey>, counts': map<StudyKey, nat>)
    requires Counted(prefix, order, counts)
    requires key in counts ==> order' == order && counts' == counts[key := counts[key] + 1]
    requires key !in counts ==> order' == order + [key] && counts' == counts[key := 1]
    ensures Counted(prefix + [key], order', counts')
  {
    var next := prefix + [key];
    assert next[..|next| - 1] == prefix;
    assert next[|next| - 1] == key;
    forall k ensures k in next <==> k in prefix || k == key {
    }
    forall k ensures Occurrences(next, k) == Occurrences(prefix, k) + (if k == key then 1 else 0) {
    }
  }

  /** The counter's items, read in insertion order, are the tally of all keys. */
  lemma CountedItems(keys: seq<StudyKey>, order: seq<StudyKey>, counts: map<StudyKey, nat>)
    requires Counted(keys, order, counts)
    ensures forall k :: k in order ==> k in counts
    ensures Entries(order, counts) == Tallied(keys)
  {
    var items := Entries(order, counts);
    var tally := Tallied(keys);
    assert |items| == |tally|;
    forall j | 0 <= j < |items| ensures items[j] == tally[j] {
    }
  }

  /** An item of the counter is a key met in the loop, with the number of times it was met. */
  lemma TalliedEntry(keys: seq<StudyKey>, e: Entry)
    requires e in Tallied(keys)
    ensures e.key in keys && 1 <= e.count == Occurrences(keys, e.key)
  {
    var items := Tallied(keys);
    var j :| 0 <= j < |items| && items[j] == e;
    assert FirstSeen(keys)[j] in FirstSeen(keys);
  }

  /** Every key met in the loop is an item of the counter, with its number of occurrences. */
  lemma TalliedCovers(keys: seq<StudyKey>, k: StudyKey)
    requires k in keys
    ensures Entry(k, Occurrences(keys, k)) in Tallied(keys)
  {
    var seen := FirstSeen(keys);
    var j :| 0 <= j < |seen| && seen[j] == k;
    assert Tallied(keys)[j] == Entry(k, Occurrences(keys, k));
  }

  /** The answer the handler computes, as a function of the stored studies. */
  function TopGroups(records: seq<StudyRecord>, topN: int): seq<Entry>
  {
    MostCommon(Tallied(KeysOf(records)), topN)
  }

  /** Every group returned carries the number of records in that group. */
  lemma PopularCounts(records: seq<StudyRecord>, topN: int)
    ensures forall j :: 0 <= j < |TopGroups(records, topN)| ==>
      1 <= TopGroups(records, topN)[j].count == Occurrences(KeysOf(records), TopGroups(records, topN)[j].key)
  {
    var keys := KeysOf(records);
    var items := Tallied(keys);
    var top := TopGroups(records, topN);
    forall j | 0 <= j < |top| ensures 1 <= top[j].count == Occurrences(keys, top[j].key) {
      assert top[j] in multiset(items);
      TalliedEntry(keys, top[j]);
    }
  }

  /** A group of records that is left out of the answer is no larger than any group returned. */
  lemma PopularOmitted(records: seq<StudyRecord>, topN: int, i: nat)
    requires i < |records|
    requires forall j :: 0 <= j < |TopGroups(records, topN)| ==> TopGroups(records, topN)[j].key != KeyOf(records[i])
    ensures forall j :: 0 <= j < |TopGroups(records, topN)| ==>
      Occurrences(KeysOf(records), KeyOf(records[i])) <= TopGroups(records, topN)[j].count
  {
    var keys := KeysOf(records);
    var top := TopGroups(records, topN);
    KeysOfAt(records, i);
    var k := keys[i];
    TalliedCovers(keys, k);
    var e := Entry(k, Occurrences(keys, k));
    assert e !in top;
  }

  /**
   * The answer has at most `top_n` entries, largest count first, and its
   * counts add up to at most the number of records.
   */
  lemma PopularBounds(records: seq<StudyRecord>, topN: int)
    ensures |TopGroups(records, topN)| <= (if topN <= 0 then 0 else topN)
    ensures NonIncreasing(TopGroups(records, topN))
    ensures Sum(TopGroups(records, topN)) <= |records|
  {
    TalliedTotal(KeysOf(records));
  }
}
