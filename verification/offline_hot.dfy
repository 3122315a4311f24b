/**
 * The "offline_hot" list of GetStatus in internal/api/handler.go: the IP-down
 * events of the current day, grouped by (monitor, IP, role), counted, with the
 * newest timestamp of each group; groups seen at least three times, most frequent
 * first and, among equally frequent ones, most recent first.
 */
module OfflineHot {
  import opened Config

  /** The grouping key of an IP-down event. */
  datatype DownKey = DownKey(monitorId: string, ip: string, role: string)

  /** One aggregated group. */
  datatype DownAgg = DownAgg(monitorId: string, name: string, ip: string, role: string, count: nat, lastAt: int)

  function KeyOf(e: IPDownEvent): DownKey
  {
    DownKey(e.monitorId, e.ip, e.role)
  }

  function AggKey(a: DownAgg): DownKey
  {
    DownKey(a.monitorId, a.ip, a.role)
  }

  /** A group is hot when it was seen at least this many times. */
  const HotCount := 3

  /**
   * How many events the scan reads: it walks the list as given (newest first) and
   * stops at the first event older than the start of the day.
   */
  function TodayCount(events: seq<IPDownEvent>, startOfDay: int): (n: nat)
    ensures n <= |events|
    ensures forall i :: 0 <= i < n ==> events[i].timestamp >= startOfDay
    ensures n < |events| ==> events[n].timestamp < startOfDay
  {
    if events == [] || events[0].timestamp < startOfDay then 0
    else 1 + TodayCount(events[1..], startOfDay)
  }

  /** The scan reads exactly the events before the first one older than the start of the day. */
  lemma ScanStopsAtFirstOld(events: seq<IPDownEvent>, startOfDay: int, n: nat)
    requires n <= |events|
    requires forall i :: 0 <= i < n ==> events[i].timestamp >= startOfDay
    requires n == |events| || events[n].timestamp < startOfDay
    ensures n == TodayCount(events, startOfDay)
  {
  }

  /** When the list is newest first, the scan reads exactly the events of the day. */
  lemma ScanReadsTheWholeDay(events: seq<IPDownEvent>, startOfDay: int)
    requires forall i, j :: 0 <= i < j < |events| ==> events[i].timestamp >= events[j].timestamp
    ensures forall i :: 0 <= i < |events| ==> (i < TodayCount(events, startOfDay) <==> events[i].timestamp >= startOfDay)
  {
    var n := TodayCount(events, startOfDay);
    forall i | n < i < |events|
      ensures events[i].timestamp < startOfDay
    {
      assert events[n].timestamp >= events[i].timestamp;
    }
  }

  /** The number of events with key `k`. */
  function CountOf(events: seq<IPDownEvent>, k: DownKey): (c: nat)
    ensures c <= |events|
  {
    if events == [] then 0
    else CountOf(events[..|events| - 1], k) + (if KeyOf(events[|events| - 1]) == k then 1 else 0)
  }

  /** The largest timestamp of the events with key `k`, starting from 0 as the Go code does. */
  function LastAtOf(events: seq<IPDownEvent>, k: DownKey): (t: int)
    ensures t >= 0
    ensures forall i :: 0 <= i < |events| && KeyOf(events[i]) == k ==> events[i].timestamp <= t
    ensures t == 0 || exists i :: 0 <= i < |events| && KeyOf(events[i]) == k && events[i].timestamp == t
  {
    if events == [] then 0
    else
      var prefix := events[..|events| - 1];
      var e := events[|events| - 1];
      var before := LastAtOf(prefix, k);
      assert forall i :: 0 <= i < |prefix| ==> prefix[i] == events[i];
      if KeyOf(e) == k && e.timestamp > before then e.timestamp else before
  }

  /** The name of the first event with key `k`: the group's entry is created by it. */
  function NameOf(events: seq<IPDownEvent>, k: DownKey): string
  {
    if events == [] then ""
    else
      var prefix := events[..|events| - 1];
      var e := events[|events| - 1];
      if KeyOf(e) == k && CountOf(prefix, k) == 0 then e.name else NameOf(prefix, k)
  }

  /** The group of key `k` over `events`. */
  function Aggregate(events: seq<IPDownEvent>, k: DownKey): (a: DownAgg)
    ensures AggKey(a) == k
  {
    DownAgg(k.monitorId, NameOf(events, k), k.ip, k.role, CountOf(events, k), LastAtOf(events, k))
  }

  /** Appending one event changes only its own group: counted once more, its newest timestamp kept. */
  lemma AggregateSnoc(events: seq<IPDownEvent>, e: IPDownEvent, k: DownKey)
    ensures var before := Aggregate(events, k);
      Aggregate(events + [e], k) ==
        if KeyOf(e) != k then before
        else before.(name := if before.count == 0 then e.name else before.name,
                     count := before.count + 1,
                     lastAt := if e.timestamp > before.lastAt then e.timestamp else before.lastAt)
  {
    assert (events + [e])[..|events + [e]| - 1] == events;
  }

  /** A group without events has no timestamp yet. */
  lemma {:induction false} EmptyGroupLastAt(events: seq<IPDownEvent>, k: DownKey)
    requires CountOf(events, k) == 0
    ensures LastAtOf(events, k) == 0
    decreases |events|
  {
    if events != [] {
      EmptyGroupLastAt(events[..|events| - 1], k);
    }
  }

  /** The name a group carries is that of one of its events. */
  lemma {:induction false} NameComesFromGroup(events: seq<IPDownEvent>, k: DownKey)
    requires CountOf(events, k) > 0
    ensures exists i :: 0 <= i < |events| && KeyOf(events[i]) == k && events[i].name == NameOf(events, k)
    decreases |events|
  {
    var prefix := events[..|events| - 1];
    var e := events[|events| - 1];
    if !(KeyOf(e) == k && CountOf(prefix, k) == 0) {
      NameComesFromGroup(prefix, k);
      var i :| 0 <= i < |prefix| && KeyOf(prefix[i]) == k && prefix[i].name == NameOf(prefix, k);
      assert events[i] == prefix[i];
    }
  }

  /** The keys of the groups of `events`: exactly the keys counted at least once. */
  function KeysOf(events: seq<IPDownEvent>): (r: set<DownKey>)
    ensures forall k :: k in r <==> CountOf(events, k) > 0
  {
    if events == [] then {}
    else KeysOf(events[..|events| - 1]) + {KeyOf(events[|events| - 1])}
  }

  /** The groups of `events` by key, each its aggregate. */
  function Groups(events: seq<IPDownEvent>): map<DownKey, DownAgg>
  {
    map k | k in KeysOf(events) :: Aggregate(events, k)
  }

  /**
   * The entry of the group of `e` once `e` is counted: created from `e` at the
   * group's first event, then counted once more with the newest timestamp kept.
   */
  function Counted(agg: map<DownKey, DownAgg>, e: IPDownEvent): DownAgg
  {
    var start := if KeyOf(e) in agg then agg[KeyOf(e)] else DownAgg(e.monitorId, e.name, e.ip, e.role, 0, 0);
    start.(count := start.count + 1, lastAt := if e.timestamp > start.lastAt then e.timestamp else start.lastAt)
  }

  /** Appending an event only replaces the group of its own key. */
  lemma GroupsSnoc(seen: seq<IPDownEvent>, e: IPDownEvent)
    ensures Groups(seen + [e]) == Groups(seen)[KeyOf(e) := Aggregate(seen + [e], KeyOf(e))]
  {
    var k := KeyOf(e);
    assert (seen + [e])[..|seen + [e]| - 1] == seen;
    assert KeysOf(seen + [e]) == KeysOf(seen) + {k};
    forall k' | k' != k
      ensures Aggregate(seen + [e], k') == Aggregate(seen, k')
    {
      AggregateSnoc(seen, e, k');
    }
  }

  /**
   * One step of the first loop: folding the next event into the groups of the
   * events before it gives the groups of the longer prefix.
   */
  lemma TallyStep(events: seq<IPDownEvent>, n: nat, agg: map<DownKey, DownAgg>)
    requires n < |events| && agg == Groups(events[..n])
    ensures Groups(events[..n + 1]) == agg[KeyOf(events[n]) := Counted(agg, events[n])]
  {
    var seen, e := events[..n], events[n];
    assert events[..n + 1] == seen + [e];
    var k := KeyOf(e);
    if k !in agg {
      EmptyGroupLastAt(seen, k);
    }
    AggregateSnoc(seen, e, k);
    GroupsSnoc(seen, e);
  }

  /** The loop body computing Counted. */
  method CountEvent(agg: map<DownKey, DownAgg>, e: IPDownEvent) returns (item: DownAgg)
    ensures item == Counted(agg, e)
  {
    var k := KeyOf(e);
    item := if k in agg then agg[k] else DownAgg(e.monitorId, e.name, e.ip, e.role, 0, 0);
    item := item.(count := item.count + 1);
    if e.timestamp > item.lastAt {
      item := item.(lastAt := e.timestamp);
    }
  }

  /**
   * The first loop of the aggregation: scan the day's events, creating a group at
   * its first event and counting and keeping the newest timestamp afterwards.
   */
  method Tally(events: seq<IPDownEvent>, startOfDay: int) returns (agg: map<DownKey, DownAgg>, n: nat)
    ensures n == TodayCount(events, startOfDay)
    ensures agg == Groups(events[..n])
  {
    agg := map[];
    n := 0;
    while n < |events| && events[n].timestamp >= startOfDay
      invariant n <= |events|
      invariant forall i :: 0 <= i < n ==> events[i].timestamp >= startOfDay
      invariant agg == Groups(events[..n])
    {
      var item := CountEvent(agg, events[n]);
      TallyStep(events, n, agg);
      agg := agg[KeyOf(events[n]) := item];
      n := n + 1;
    }
    ScanStopsAtFirstOld(events, startOfDay, n);
  }

  /**
   * The second loop: every group counted at least HotCount times, each once, in
   * the (unspecified) order of the map.
   */
  method SelectHot(agg: map<DownKey, DownAgg>) returns (items: seq<DownAgg>)
    ensures forall i :: 0 <= i < |items| ==> AggKey(items[i]) in agg && agg[AggKey(items[i])] == items[i]
    ensures forall i :: 0 <= i < |items| ==> items[i].count >= HotCount
    ensures forall k :: k in agg && agg[k].count >= HotCount ==> agg[k] in items
    ensures forall x :: multiset(items)[x] <= 1
    requires forall k :: k in agg ==> AggKey(agg[k]) == k
  {
    items := [];
    var rest := agg.Keys;
    while rest != {}
      invariant rest <= agg.Keys
      invariant forall i :: 0 <= i < |items| ==> AggKey(items[i]) in agg.Keys - rest && agg[AggKey(items[i])] == items[i]
      invariant forall i :: 0 <= i < |items| ==> items[i].count >= HotCount
      invariant forall k :: k in agg.Keys - rest && agg[k].count >= HotCount ==> agg[k] in items
      invariant forall x :: multiset(items)[x] <= 1
      decreases rest
    {
      var k :| k in rest;
      if agg[k].count >= HotCount {
        assert agg[k] !in items;
        items := items + [agg[k]];
      }
      rest := rest - {k};
    }
  }

  /** The order of the list: more frequent first, then more recent first. */
  predicate Ahead(a: DownAgg, b: DownAgg)
  {
    a.count > b.count || (a.count == b.count && a.lastAt >= b.lastAt)
  }

  predicate SortedHot(s: seq<DownAgg>)
  {
    forall i, j :: 0 <= i < j < |s| ==> Ahead(s[i], s[j])
  }

  /** `s` with `x` put before the first element it is ahead of. */
  function InsertHot(x: DownAgg, s: seq<DownAgg>): (r: seq<DownAgg>)
    ensures multiset(r) == multiset(s) + multiset{x}
  {
    if s == [] then [x]
    else if Ahead(x, s[0]) then [x] + s
    else
      assert s == [s[0]] + s[1..];
      [s[0]] + InsertHot(x, s[1..])
  }

  /** Inserting into a sorted list keeps it sorted. */
  lemma {:induction false} InsertHotSorted(x: DownAgg, s: seq<DownAgg>)
    requires SortedHot(s)
    ensures SortedHot(InsertHot(x, s))
    decreases |s|
  {
    if s != [] && !Ahead(x, s[0]) {
      var tail := s[1..];
      var rest := InsertHot(x, tail);
      InsertHotSorted(x, tail);
      forall y | y in rest
        ensures Ahead(s[0], y)
      {
        assert multiset(rest)[y] > 0;
        if y != x {
          assert y in tail;
        }
      }
      var r := InsertHot(x, s);
      assert r == [s[0]] + rest;
      forall i, j | 0 <= i < j < |r|
        ensures Ahead(r[i], r[j])
      {
        if i == 0 {
          assert r[j] == rest[j - 1];
          assert r[j] in rest;
        } else {
          assert r[i] == rest[i - 1] && r[j] == rest[j - 1];
        }
      }
    }
  }

  /** The sort of the list; ties in both count and time may come in any order. */
  method SortHot(items: seq<DownAgg>) returns (sorted: seq<DownAgg>)
    ensures SortedHot(sorted)
    ensures multiset(sorted) == multiset(items)
  {
    sorted := [];
    var i := 0;
    while i < |items|
      invariant 0 <= i <= |items|
      invariant SortedHot(sorted)
      invariant multiset(sorted) == multiset(items[..i])
    {
      assert items[..i + 1] == items[..i] + [items[i]];
      InsertHotSorted(items[i], sorted);
      sorted := InsertHot(items[i], sorted);
      i := i + 1;
    }
    assert items[..i] == items;
  }

  /**
   * The offline_hot list over the IP-down log (newest first) and the start of the
   * day in milliseconds: every hot group of the day's events exactly once, each
   * equal to the aggregate of its group, in Ahead order.
   */
  method OfflineHotList(ipDown: seq<IPDownEvent>, startOfDay: int) returns (hot: seq<DownAgg>)
    ensures SortedHot(hot)
    ensures var today := ipDown[..TodayCount(ipDown, startOfDay)];
      forall i :: 0 <= i < |hot| ==> hot[i].count >= HotCount && hot[i] == Aggregate(today, AggKey(hot[i]))
    ensures var today := ipDown[..TodayCount(ipDown, startOfDay)];
      forall k :: CountOf(today, k) >= HotCount ==> Aggregate(today, k) in hot
    ensures forall x :: multiset(hot)[x] <= 1
  {
    var agg, n := Tally(ipDown, startOfDay);
    ghost var today := ipDown[..n];
    var items := SelectHot(agg);
    hot := SortHot(items);
    forall i | 0 <= i < |hot|
      ensures hot[i].count >= HotCount && hot[i] == Aggregate(today, AggKey(hot[i]))
    {
      assert multiset(items)[hot[i]] > 0;
      var j :| 0 <= j < |items| && items[j] == hot[i];
    }
    forall k | CountOf(today, k) >= HotCount
      ensures Aggregate(today, k) in hot
    {
      assert agg[k] in items;
      assert multiset(hot)[agg[k]] > 0;
    }
  }
}
