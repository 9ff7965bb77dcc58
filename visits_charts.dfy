/**
 * The admin charts: the summary figures over up to a thousand visits, and the
 * per-browser, per-device and per-page tallies behind the charts.
 */
module VisitsCharts {
  import opened Options
  import opened Text
  import opened Api
  import opened Collections
  import VisitsTab

  /** The keys in order of first appearance, each once. */
  function Distinct(keys: seq<string>): (r: seq<string>)
    ensures forall k :: k in r <==> k in keys
    ensures forall i, j :: 0 <= i < j < |r| ==> r[i] != r[j]
    ensures |r| <= |keys|
  {
    if keys == [] then []
    else
      var n := |keys| - 1;
      var d := Distinct(keys[..n]);
      assert forall k :: k in keys <==> k in keys[..n] || k == keys[n];
      if keys[n] in d then d else d + [keys[n]]
  }

  /** A new key goes to the end; a key already seen changes nothing. */
  lemma DistinctAppend(keys: seq<string>, x: string)
    ensures Distinct(keys + [x]) == if x in Distinct(keys) then Distinct(keys) else Distinct(keys) + [x]
  {
    assert (keys + [x])[..|keys|] == keys;
  }

  /** The number of times each key occurs. */
  function TallyMap(keys: seq<string>): (m: map<string, nat>)
    ensures forall k :: k in m <==> k in keys
    ensures forall k :: k in m ==> m[k] == multiset(keys)[k]
  {
    if keys == [] then map[]
    else
      var n := |keys| - 1;
      var m := TallyMap(keys[..n]);
      assert keys == keys[..n] + [keys[n]];
      assert forall k :: k in keys <==> k in keys[..n] || k == keys[n];
      if keys[n] in m then m[keys[n] := m[keys[n]] + 1] else m[keys[n] := 1]
  }

  /**
   * The `reduce` that fills a counting object: one pass that adds each new key
   * to the object (whose keys keep insertion order) and increments its count.
   */
  method Tally(keys: seq<string>) returns (labels: seq<string>, counts: map<string, nat>)
    ensures labels == Distinct(keys)
    ensures counts == TallyMap(keys)
  {
    labels := [];
    counts := map[];
    for i := 0 to |keys|
      invariant labels == Distinct(keys[..i])
      invariant counts == TallyMap(keys[..i])
    {
      var key := keys[i];
      assert keys[..i + 1][..i] == keys[..i];
      if key in counts {
        counts := counts[key := counts[key] + 1];
      } else {
        labels := labels + [key];
        counts := counts[key := 1];
      }
    }
    assert keys[..|keys|] == keys;
  }

  /** The counts of the given labels, added up. */
  function SumCounts(labels: seq<string>, counts: map<string, nat>): nat
    requires forall k :: k in labels ==> k in counts
  {
    if labels == [] then 0
    else SumCounts(labels[..|labels| - 1], counts) + counts[labels[|labels| - 1]]
  }

  /** Changing the count of a key the labels do not hold leaves their sum alone. */
  lemma {:induction false} SumCountsOther(labels: seq<string>, counts: map<string, nat>, key: string, c: nat)
    requires forall k :: k in labels ==> k in counts
    requires key !in labels
    ensures SumCounts(labels, counts[key := c]) == SumCounts(labels, counts)
  {
    if labels != [] {
      SumCountsOther(labels[..|labels| - 1], counts, key, c);
    }
  }

  /** Incrementing the count of a key that the labels hold exactly once adds one to their sum. */
  lemma {:induction false} SumCountsIncrement(labels: seq<string>, counts: map<string, nat>, key: string)
    requires forall k :: k in labels ==> k in counts
    requires forall i, j :: 0 <= i < j < |labels| ==> labels[i] != labels[j]
    requires key in labels
    ensures SumCounts(labels, counts[key := counts[key] + 1]) == SumCounts(labels, counts) + 1
  {
    var n := |labels| - 1;
    var init := labels[..n];
    assert forall i, j :: 0 <= i < j < |init| ==> init[i] != init[j];
    if labels[n] == key {
      assert forall i :: 0 <= i < n ==> init[i] == labels[i] != labels[n];
      SumCountsOther(init, counts, key, counts[key] + 1);
    } else {
      assert key in init;
      SumCountsIncrement(init, counts, key);
    }
  }

  /** Every key is counted once per occurrence: the counts add up to the number of keys. */
  lemma {:induction false} TallySumsToLength(keys: seq<string>)
    ensures SumCounts(Distinct(keys), TallyMap(keys)) == |keys|
  {
    if keys != [] {
      var n := |keys| - 1;
      var key := keys[n];
      var d := Distinct(keys[..n]);
      var m := TallyMap(keys[..n]);
      assert key in m <==> key in d;
      TallySumsToLength(keys[..n]);
      if key in m {
        assert Distinct(keys) == d;
        assert TallyMap(keys) == m[key := m[key] + 1];
        SumCountsIncrement(d, m, key);
      } else {
        assert Distinct(keys) == d + [key];
        assert TallyMap(keys) == m[key := 1];
        SumCountsOther(d, m, key, 1);
        assert (d + [key])[..|d|] == d;
      }
    }
  }

  /** The summary figures of the charts page. */
  datatype Summary = Summary(
    totalVisits: nat,
    uniqueUsers: nat,
    uniquePages: nat,
    averageNum: nat,
    averageDen: nat)

  /** The session of every visit, in order (an absent session is one value of its own). */
  function Sessions(visits: seq<PageVisit>): (ss: seq<Option<string>>)
    ensures |ss| == |visits| && forall k :: 0 <= k < |visits| ==> ss[k] == visits[k].sessionId
  {
    seq(|visits|, k requires 0 <= k < |visits| => visits[k].sessionId)
  }

  /**
   * The figures `fetchData` computes: the number of visits, of distinct
   * sessions and of distinct pages, and the mean time of the timed visits as the
   * exact fraction `averageNum / averageDen` (0 when no visit has a time).
   */
  function Summarize(visits: seq<PageVisit>): (s: Summary)
    ensures s.totalVisits == |visits|
    ensures s.uniqueUsers == |Elements(Sessions(visits))| && s.uniqueUsers <= |visits|
    ensures s.uniquePages == VisitsTab.PagesCard(visits)
    ensures |visits| > 0 ==> s.uniqueUsers > 0 && s.uniquePages > 0
    ensures s.averageDen > 0
    ensures VisitsTab.TimedSeconds(visits) == [] ==> s.averageNum == 0
    ensures VisitsTab.TimedSeconds(visits) != [] ==>
              s.averageNum == VisitsTab.Sum(VisitsTab.TimedSeconds(visits))
              && s.averageDen == |VisitsTab.TimedSeconds(visits)|
  {
    ElementsBound(Sessions(visits));
    var timed := VisitsTab.TimedSeconds(visits);
    Summary(
      |visits|,
      |Elements(Sessions(visits))|,
      VisitsTab.PagesCard(visits),
      if timed == [] then 0 else VisitsTab.Sum(timed),
      if timed == [] then 1 else |timed|)
  }

  /** The browser of every visit, `'Desconocido'` when it is missing or empty. */
  function BrowserKeys(visits: seq<PageVisit>): (keys: seq<string>)
    ensures |keys| == |visits|
    ensures forall k :: 0 <= k < |visits| ==> keys[k] == OrElse(visits[k].browser, "Desconocido")
  {
    seq(|visits|, k requires 0 <= k < |visits| => OrElse(visits[k].browser, "Desconocido"))
  }

  /** The device type of every visit, `'Desconocido'` when it is missing or empty. */
  function DeviceKeys(visits: seq<PageVisit>): (keys: seq<string>)
    ensures |keys| == |visits|
    ensures forall k :: 0 <= k < |visits| ==> keys[k] == OrElse(visits[k].deviceType, "Desconocido")
  {
    seq(|visits|, k requires 0 <= k < |visits| => OrElse(visits[k].deviceType, "Desconocido"))
  }

  /** The page of every visit, `'N/A'` when it is empty. */
  function PageKeys(visits: seq<PageVisit>): (keys: seq<string>)
    ensures |keys| == |visits|
    ensures forall k :: 0 <= k < |visits| ==> keys[k] == (if visits[k].pageUrl == "" then "N/A" else visits[k].pageUrl)
  {
    seq(|visits|, k requires 0 <= k < |visits| => if visits[k].pageUrl == "" then "N/A" else visits[k].pageUrl)
  }

  /** The doughnut's palette. */
  const PALETTE: seq<string> := [
    "rgba(59, 130, 246, 0.8)",
    "rgba(16, 185, 129, 0.8)",
    "rgba(245, 158, 11, 0.8)",
    "rgba(239, 68, 68, 0.8)",
    "rgba(139, 92, 246, 0.8)"]

  /** The page chart's one bar colour, given to every bar alike. */
  const PAGE_BAR_COLOR: string := "rgba(59, 130, 246, 0.8)"

  /** A chart: its labels, one value per label, and the colours given to it. */
  datatype Chart = Chart(labels: seq<string>, data: seq<nat>, colors: seq<string>)

  /** The value of each label, in label order. */
  function Values(labels: seq<string>, counts: map<string, nat>): (vs: seq<nat>)
    requires forall k :: k in labels ==> k in counts
    ensures |vs| == |labels| && forall i :: 0 <= i < |labels| ==> vs[i] == counts[labels[i]]
  {
    seq(|labels|, i requires 0 <= i < |labels| => counts[labels[i]])
  }

  /**
   * `prepareBrowserData`: one slice per distinct browser in order of first
   * appearance, its number of visits, and one palette colour per slice up to five.
   */
  method BrowserChart(visits: seq<PageVisit>) returns (chart: Chart)
    ensures chart.labels == Distinct(BrowserKeys(visits))
    ensures |chart.data| == |chart.labels|
    ensures forall i :: 0 <= i < |chart.labels| ==> chart.data[i] == multiset(BrowserKeys(visits))[chart.labels[i]]
    ensures chart.colors == PALETTE[..if |chart.labels| < 5 then |chart.labels| else 5]
  {
    var labels, counts := Tally(BrowserKeys(visits));
    var n := if |labels| < 5 then |labels| else 5;
    chart := Chart(labels, Values(labels, counts), PALETTE[..n]);
  }

  /** `prepareDeviceData`: one bar per distinct device type in order of first appearance, with its number of visits. */
  method DeviceChart(visits: seq<PageVisit>) returns (chart: Chart)
    ensures chart.labels == Distinct(DeviceKeys(visits))
    ensures |chart.data| == |chart.labels|
    ensures forall i :: 0 <= i < |chart.labels| ==> chart.data[i] == multiset(DeviceKeys(visits))[chart.labels[i]]
    ensures chart.colors == PALETTE[..3]
  {
    var labels, counts := Tally(DeviceKeys(visits));
    chart := Chart(labels, Values(labels, counts), PALETTE[..3]);
  }

  /** The chart values of a tally add up to the number of visits. */
  lemma ChartTotal(keys: seq<string>)
    ensures VisitsTab.Sum(Values(Distinct(keys), TallyMap(keys))) == |keys|
  {
    TallySumsToLength(keys);
    SumValues(Distinct(keys), TallyMap(keys));
  }

  /** Adding up the values of the labels is adding up their counts. */
  lemma {:induction false} SumValues(labels: seq<string>, counts: map<string, nat>)
    requires forall k :: k in labels ==> k in counts
    ensures VisitsTab.Sum(Values(labels, counts)) == SumCounts(labels, counts)
  {
    if labels != [] {
      var n := |labels| - 1;
      SumValues(labels[..n], counts);
      SumAppend(Values(labels[..n], counts), counts[labels[n]]);
      assert Values(labels, counts) == Values(labels[..n], counts) + [counts[labels[n]]];
    }
  }

  lemma {:induction false} SumAppend(xs: seq<nat>, x: nat)
    ensures VisitsTab.Sum(xs + [x]) == VisitsTab.Sum(xs) + x
  {
    if xs != [] {
      SumAppend(xs[1..], x);
      assert (xs + [x])[1..] == xs[1..] + [x];
    }
  }

  /** Entries are ordered by non-increasing count. */
  predicate SortedDesc(es: seq<(string, nat)>) {
    forall i, j :: 0 <= i < j < |es| ==> es[i].1 >= es[j].1
  }

  /** Inserts an entry after every entry whose count is at least its own. */
  function InsertDesc(e: (string, nat), es: seq<(string, nat)>): (r: seq<(string, nat)>)
    requires SortedDesc(es)
    ensures SortedDesc(r)
    ensures multiset(r) == multiset(es) + multiset{e}
    ensures |r| == |es| + 1 && (r[0] == e || (es != [] && r[0] == es[0]))
  {
    if es == [] then [e]
    else if es[0].1 >= e.1 then
      SortedTail(es);
      var t := InsertDesc(e, es[1..]);
      InsertAfterHead(e, es, t);
      [es[0]] + t
    else
      PrependDesc(e, es);
      [e] + es
  }

  /** The tail of a sorted sequence is sorted. */
  lemma SortedTail(es: seq<(string, nat)>)
    requires SortedDesc(es) && es != []
    ensures SortedDesc(es[1..])
  {
    assert forall k :: 0 <= k < |es[1..]| ==> es[1..][k] == es[k + 1];
  }

  /** Keeping the head and inserting into the tail inserts into the whole. */
  lemma InsertAfterHead(e: (string, nat), es: seq<(string, nat)>, t: seq<(string, nat)>)
    requires SortedDesc(es) && es != [] && es[0].1 >= e.1
    requires SortedDesc(t) && multiset(t) == multiset(es[1..]) + multiset{e}
    requires |t| == |es| && (t[0] == e || (es[1..] != [] && t[0] == es[1..][0]))
    ensures SortedDesc([es[0]] + t)
    ensures multiset([es[0]] + t) == multiset(es) + multiset{e}
  {
    assert es == [es[0]] + es[1..];
    assert multiset(es) == multiset{es[0]} + multiset(es[1..]);
    PrependDesc(es[0], t);
  }

  /** An entry whose count is at least that of the head of a sorted sequence may be put before it. */
  lemma PrependDesc(x: (string, nat), t: seq<(string, nat)>)
    requires SortedDesc(t)
    requires t != [] ==> x.1 >= t[0].1
    ensures SortedDesc([x] + t)
  {
    var r := [x] + t;
    forall i, j | 0 <= i < j < |r| ensures r[i].1 >= r[j].1 {
      if i == 0 {
        assert r[j] == t[j - 1];
        assert t[0].1 >= t[j - 1].1 || j - 1 == 0;
      } else {
        assert r[i] == t[i - 1] && r[j] == t[j - 1];
      }
    }
  }

  /** The stable sort by non-increasing count that `sort(([, a], [, b]) => b - a)` performs. */
  function SortDesc(es: seq<(string, nat)>): (r: seq<(string, nat)>)
    ensures SortedDesc(r)
    ensures multiset(r) == multiset(es)
  {
    if es == [] then []
    else
      var n := |es| - 1;
      assert es == es[..n] + [es[n]];
      InsertDesc(es[n], SortDesc(es[..n]))
  }

  /**
   * `sort(...).slice(0, 5)`: at most five entries, in non-increasing order of
   * count, all taken from the input, and no entry left out has a larger count
   * than any entry kept.
   */
  function TopFive(es: seq<(string, nat)>): (r: seq<(string, nat)>)
    ensures |r| == if |es| < 5 then |es| else 5
    ensures SortedDesc(r)
    ensures forall k :: 0 <= k < |r| ==> r[k] in es
    ensures forall k :: 0 <= k < |es| ==> es[k] in r || forall j :: 0 <= j < |r| ==> es[k].1 <= r[j].1
    ensures multiset(r) <= multiset(es)
    ensures |es| <= 5 ==> multiset(r) == multiset(es)
  {
    var s := SortDesc(es);
    assert |s| == |multiset(s)| == |multiset(es)| == |es|;
    var n := if |s| < 5 then |s| else 5;
    SortedPrefix(es, s, n);
    assert s == s[..n] + s[n..];
    assert multiset(s) == multiset(s[..n]) + multiset(s[n..]);
    s[..n]
  }

  /** A sequence without repeated elements holds each value at most once. */
  lemma {:induction false} CountOfDistinct<T>(s: seq<T>)
    requires forall i, j :: 0 <= i < j < |s| ==> s[i] != s[j]
    ensures forall x :: multiset(s)[x] <= 1
  {
    if s != [] {
      assert s == [s[0]] + s[1..];
      assert forall i, j :: 0 <= i < j < |s[1..]| ==> s[1..][i] == s[i + 1] && s[1..][j] == s[j + 1];
      CountOfDistinct(s[1..]);
      assert s[0] !in s[1..];
    }
  }

  /** A sequence holding each value at most once has no repeated elements. */
  lemma {:induction false} DistinctOfCount<T>(s: seq<T>)
    requires forall x :: multiset(s)[x] <= 1
    ensures forall i, j :: 0 <= i < j < |s| ==> s[i] != s[j]
  {
    if s != [] {
      assert s == [s[0]] + s[1..];
      assert forall x :: multiset(s)[x] == multiset{s[0]}[x] + multiset(s[1..])[x];
      DistinctOfCount(s[1..]);
      assert s[0] !in multiset(s[1..]);
      forall i, j | 0 <= i < j < |s| ensures s[i] != s[j] {
        if i == 0 {
          assert s[j] == s[1..][j - 1];
        } else {
          assert s[i] == s[1..][i - 1] && s[j] == s[1..][j - 1];
        }
      }
    }
  }

  /** A prefix of a sorted permutation of `es`: sorted, drawn from `es`, and dominating the rest of `es`. */
  lemma SortedPrefix(es: seq<(string, nat)>, s: seq<(string, nat)>, n: nat)
    requires SortedDesc(s) && multiset(s) == multiset(es) && n <= |s|
    ensures SortedDesc(s[..n])
    ensures forall k :: 0 <= k < n ==> s[..n][k] in es
    ensures forall k :: 0 <= k < |es| ==> es[k] in s[..n] || forall j :: 0 <= j < n ==> es[k].1 <= s[..n][j].1
  {
    SameElements(s, es);
    PrefixDominates(s, n);
    assert forall k :: 0 <= k < n ==> s[..n][k] == s[k];
    assert forall k :: 0 <= k < |es| ==> es[k] in s by {
      forall k | 0 <= k < |es| ensures es[k] in s {
        assert es[k] in es;
      }
    }
  }

  /** Sequences that are permutations of each other have the same elements. */
  lemma SameElements(s: seq<(string, nat)>, es: seq<(string, nat)>)
    requires multiset(s) == multiset(es)
    ensures forall x :: x in s <==> x in es
  {
    forall x ensures x in s <==> x in es {
      assert x in s <==> x in multiset(s);
      assert x in es <==> x in multiset(es);
    }
  }

  /** In a sorted sequence, an element is in a prefix or has no larger count than any element of the prefix. */
  lemma PrefixDominates(s: seq<(string, nat)>, n: nat)
    requires SortedDesc(s) && n <= |s|
    ensures forall x :: x in s ==> x in s[..n] || forall j :: 0 <= j < n ==> x.1 <= s[j].1
  {
    forall x | x in s
      ensures x in s[..n] || forall j :: 0 <= j < n ==> x.1 <= s[j].1
    {
      var i :| 0 <= i < |s| && s[i] == x;
      if i < n {
        assert s[..n][i] == x;
      }
    }
  }

  /** `page.length > 20 ? page.substring(0, 20) + '...' : page`. */
  function PageLabel(page: string): (shown: string)
    ensures |page| <= 20 ==> shown == page
    ensures |page| > 20 ==> |shown| == 23 && shown[..20] == page[..20] && shown[20..] == "..."
  {
    if |page| > 20 then page[..20] + "..." else page
  }

  /** The chart label is the table's truncated URL with a limit of 20. */
  lemma PageLabelIsTruncatedUrl(page: string)
    requires page != ""
    ensures PageLabel(page) == VisitsTab.TruncateUrl(Some(page), 20)
  {
  }

  /** The entries of a tally, in key order. */
  function Entries(labels: seq<string>, counts: map<string, nat>): (es: seq<(string, nat)>)
    requires forall k :: k in labels ==> k in counts
    ensures |es| == |labels| && forall i :: 0 <= i < |labels| ==> es[i] == (labels[i], counts[labels[i]])
  {
    seq(|labels|, i requires 0 <= i < |labels| => (labels[i], counts[labels[i]]))
  }

  /**
   * The five most visited pages with their visit counts, by non-increasing
   * count; every page left out has no more visits than any page shown.
   */
  function TopPages(visits: seq<PageVisit>): (top: seq<(string, nat)>)
    ensures |top| <= 5 && SortedDesc(top)
    ensures |top| == if |Distinct(PageKeys(visits))| < 5 then |Distinct(PageKeys(visits))| else 5
    ensures var pages := PageKeys(visits);
            forall i :: 0 <= i < |top| ==> top[i].0 in pages && top[i].1 == multiset(pages)[top[i].0]
    ensures forall i, j :: 0 <= i < j < |top| ==> top[i].0 != top[j].0
    ensures var pages := PageKeys(visits);
            forall p :: p in pages ==>
              (p, multiset(pages)[p]) in top
              || (|top| == 5 && forall j :: 0 <= j < |top| ==> multiset(pages)[p] <= top[j].1)
  {
    var pages := PageKeys(visits);
    var es := Entries(Distinct(pages), TallyMap(pages));
    RankedTally(pages);
    assert |es| == |Distinct(pages)|;
    TopFive(es)
  }

  /**
   * The five best entries of a tally: each a key with its exact count, no key
   * twice, and every key left out counted no more than any key kept.
   */
  lemma RankedTally(keys: seq<string>)
    ensures var top := TopFive(Entries(Distinct(keys), TallyMap(keys)));
            (forall i :: 0 <= i < |top| ==> top[i].0 in keys && top[i].1 == multiset(keys)[top[i].0])
            && (forall i, j :: 0 <= i < j < |top| ==> top[i].0 != top[j].0)
            && (forall p :: p in keys ==>
                  (p, multiset(keys)[p]) in top
                  || (|top| == 5 && forall j :: 0 <= j < |top| ==> multiset(keys)[p] <= top[j].1))
  {
    var es := Entries(Distinct(keys), TallyMap(keys));
    TallyEntries(keys);
    RankedEntries(keys, es);
  }

  /** The entries of a tally: one per key, each with the key's count. */
  lemma TallyEntries(keys: seq<string>)
    ensures var es := Entries(Distinct(keys), TallyMap(keys));
            (forall k :: 0 <= k < |es| ==> es[k].0 in keys && es[k].1 == multiset(keys)[es[k].0])
            && (forall i, j :: 0 <= i < j < |es| ==> es[i] != es[j])
            && (forall p :: p in keys ==> (p, multiset(keys)[p]) in es)
  {
    var d := Distinct(keys);
    var es := Entries(d, TallyMap(keys));
    forall p | p in keys
      ensures (p, multiset(keys)[p]) in es
    {
      var k :| 0 <= k < |d| && d[k] == p;
      assert es[k] == (p, multiset(keys)[p]);
    }
  }

  /** The best five of entries that give each key its count once. */
  lemma RankedEntries(keys: seq<string>, es: seq<(string, nat)>)
    requires forall k :: 0 <= k < |es| ==> es[k].0 in keys && es[k].1 == multiset(keys)[es[k].0]
    requires forall i, j :: 0 <= i < j < |es| ==> es[i] != es[j]
    requires forall p :: p in keys ==> (p, multiset(keys)[p]) in es
    ensures var top := TopFive(es);
            (forall i :: 0 <= i < |top| ==> top[i].0 in keys && top[i].1 == multiset(keys)[top[i].0])
            && (forall i, j :: 0 <= i < j < |top| ==> top[i].0 != top[j].0)
            && (forall p :: p in keys ==>
                  (p, multiset(keys)[p]) in top
                  || (|top| == 5 && forall j :: 0 <= j < |top| ==> multiset(keys)[p] <= top[j].1))
  {
    var top := TopFive(es);
    TopCounts(keys, es, top);
    TopDistinct(es, top);
    TopDominates(keys, es, top);
  }

  /** Entries drawn from a tally carry their key's count. */
  lemma TopCounts(keys: seq<string>, es: seq<(string, nat)>, top: seq<(string, nat)>)
    requires forall k :: 0 <= k < |es| ==> es[k].0 in keys && es[k].1 == multiset(keys)[es[k].0]
    requires forall k :: 0 <= k < |top| ==> top[k] in es
    ensures forall i :: 0 <= i < |top| ==> top[i].0 in keys && top[i].1 == multiset(keys)[top[i].0]
  {
    forall i | 0 <= i < |top|
      ensures top[i].0 in keys && top[i].1 == multiset(keys)[top[i].0]
    {
      var k :| 0 <= k < |es| && es[k] == top[i];
    }
  }

  /** Part of a list without repeats has no repeats. */
  lemma TopDistinct(es: seq<(string, nat)>, top: seq<(string, nat)>)
    requires forall i, j :: 0 <= i < j < |es| ==> es[i] != es[j]
    requires multiset(top) <= multiset(es)
    ensures forall i, j :: 0 <= i < j < |top| ==> top[i] != top[j]
  {
    CountOfDistinct(es);
    assert forall x :: multiset(top)[x] <= multiset(es)[x];
    DistinctOfCount(top);
  }

  /** Every key of the tally is kept, or the five kept all have at least its count. */
  lemma TopDominates(keys: seq<string>, es: seq<(string, nat)>, top: seq<(string, nat)>)
    requires forall p :: p in keys ==> (p, multiset(keys)[p]) in es
    requires top == TopFive(es)
    ensures forall p :: p in keys ==>
              (p, multiset(keys)[p]) in top
              || (|top| == 5 && forall j :: 0 <= j < |top| ==> multiset(keys)[p] <= top[j].1)
  {
    forall p | p in keys
      ensures (p, multiset(keys)[p]) in top
              || (|top| == 5 && forall j :: 0 <= j < |top| ==> multiset(keys)[p] <= top[j].1)
    {
      var k :| 0 <= k < |es| && es[k] == (p, multiset(keys)[p]);
      if |es| <= 5 {
        assert es[k] in multiset(top);
      }
    }
  }

  /** `preparePageData`: the five most visited pages, by non-increasing count, with their labels shortened to 20 characters. */
  method PageChart(visits: seq<PageVisit>) returns (chart: Chart)
    ensures |chart.labels| == |TopPages(visits)| == |chart.data|
    ensures forall i :: 0 <= i < |chart.labels| ==>
              chart.labels[i] == PageLabel(TopPages(visits)[i].0) && chart.data[i] == TopPages(visits)[i].1
    ensures |chart.labels| <= 5
    ensures chart.colors == [PAGE_BAR_COLOR]
  {
    var keys := PageKeys(visits);
    var labels, counts := Tally(keys);
    var top := TopFive(Entries(labels, counts));
    chart := PageChartOf(top);
  }

  /** The chart of ranked pages: their shortened names and their counts, every bar in the one page colour. */
  method PageChartOf(top: seq<(string, nat)>) returns (chart: Chart)
    ensures |chart.labels| == |top| == |chart.data|
    ensures forall i :: 0 <= i < |top| ==> chart.labels[i] == PageLabel(top[i].0) && chart.data[i] == top[i].1
    ensures chart.colors == [PAGE_BAR_COLOR]
  {
    var names := seq(|top|, i requires 0 <= i < |top| => PageLabel(top[i].0));
    var data := seq(|top|, i requires 0 <= i < |top| => top[i].1);
    chart := Chart(names, data, [PAGE_BAR_COLOR]);
  }
}
