/** The dashboard statistics (components/Dashboard.tsx:11-27): the top-N
    ranking `generateTopStats` and the high, medium and unique-vehicle
    counters. The ranking at components/AIAnalysis.tsx:10-20 is the same
    function, character for character, and is this one. */
module Stats {
  import opened Text
  import opened Types
  import opened Seqs

  /** The alert fields the ranking is asked for. */
  datatype Column = Plate | Contract | Operator

  function FieldOf(a: Alert, c: Column): string {
    match c
    case Plate => a.placa
    case Contract => a.contrato
    case Operator => a.operador
  }

  /** `(alert[key] as string) || 'N/A'`: the empty string is falsy. */
  function GroupKey(a: Alert, c: Column): (k: string)
    ensures k != []
    ensures FieldOf(a, c) != [] ==> k == FieldOf(a, c)
    ensures FieldOf(a, c) == [] ==> k == NotAvailable
  {
    if FieldOf(a, c) == [] then NotAvailable else FieldOf(a, c)
  }

  /** The keys counted, one per alert, in alert order. */
  function KeysOf(alerts: seq<Alert>, c: Column): seq<string> {
    seq(|alerts|, i requires 0 <= i < |alerts| => GroupKey(alerts[i], c))
  }

  /** At least one distinct key when there is at least one alert. */
  lemma SomeKey(alerts: seq<Alert>, c: Column)
    requires alerts != []
    ensures |Distinct(KeysOf(alerts, c))| >= 1
  {
    assert KeysOf(alerts, c)[0] in Distinct(KeysOf(alerts, c));
  }

  // ---------------------------------------------------------------------
  // The order of `Object.entries`

  /** A key JavaScript treats as an array index: the canonical decimal
      form of an integer below 2^32 - 1. */
  predicate IsArrayIndex(k: string) {
    k != [] && AllDigits(k) && (|k| == 1 || k[0] != '0') && DigitsValue(k) < 0xFFFF_FFFF
  }

  function IndexValue(k: string): int {
    if IsArrayIndex(k) then DigitsValue(k) else 0
  }

  predicate NotArrayIndex(k: string) {
    !IsArrayIndex(k)
  }

  /** The order `Object.entries` lists the keys of an object whose keys
      were created in the order `keys`: the array indices first, in
      ascending numeric order, then the other keys in creation order. */
  function EntryOrder(keys: seq<string>): (order: seq<string>)
    ensures multiset(order) == multiset(keys)
  {
    FilterPartition(keys, IsArrayIndex, NotArrayIndex);
    SortBy(Filter(keys, IsArrayIndex), IndexValue) + Filter(keys, NotArrayIndex)
  }

  // ---------------------------------------------------------------------
  // The ranking

  /** One item per key of `order`, counting its occurrences in `keys`. */
  function Counted(order: seq<string>, keys: seq<string>): (items: seq<StatItem>)
    ensures |items| == |order|
    ensures forall i :: 0 <= i < |items| ==> items[i].name == order[i]
    ensures forall i :: 0 <= i < |items| ==> items[i].count == multiset(keys)[order[i]]
  {
    seq(|order|, i requires 0 <= i < |order| => StatItem(order[i], multiset(keys)[order[i]]))
  }

  /** `Object.entries(counts).map(([name, count]) => ({ name, count }))`. */
  function Entries(alerts: seq<Alert>, c: Column): (items: seq<StatItem>)
    ensures |items| == |Distinct(KeysOf(alerts, c))|
  {
    var keys := KeysOf(alerts, c);
    Counted(EntryOrder(Distinct(keys)), keys)
  }

  /** The comparator `(a, b) => b.count - a.count` as an ascending key. */
  function ByCount(e: StatItem): int {
    -(e.count as int)
  }

  /** `.sort(...).slice(0, topN)` over the entries: what `generateTopStats`
      returns. */
  function TopStats(alerts: seq<Alert>, c: Column, topN: nat): (top: seq<StatItem>)
    ensures |top| <= topN
    ensures forall e :: e in top ==> e in Entries(alerts, c)
  {
    TakeOfSorted(Entries(alerts, c), ByCount, topN);
    Take(SortBy(Entries(alerts, c), ByCount), topN)
  }

  /** The `reduce` of `generateTopStats` (Dashboard.tsx:12-16): a
      dictionary filled in place, a key created at its first occurrence
      and incremented at the others. Returns the keys in creation order
      and the counts. */
  method CountKeys(alerts: seq<Alert>, c: Column) returns (created: seq<string>, counts: map<string, nat>)
    ensures created == Distinct(KeysOf(alerts, c))
    ensures forall k :: k in counts <==> k in KeysOf(alerts, c)
    ensures forall k :: k in counts ==> counts[k] == multiset(KeysOf(alerts, c))[k]
  {
    ghost var keys := KeysOf(alerts, c);
    created := [];
    counts := map[];
    for i := 0 to |alerts|
      invariant created == Distinct(keys[..i])
      invariant counts == Occurrences(keys[..i])
    {
      var value := GroupKey(alerts[i], c);
      assert keys[i] == value;
      assert keys[..i + 1] == keys[..i] + [value];
      created, counts := AddKey(created, counts, keys[..i], value);
    }
    assert keys[..|alerts|] == keys;
    OccurrencesOf(keys);
  }

  lemma OccurrencesOf(seen: seq<string>)
    ensures forall k :: k in Occurrences(seen) <==> k in seen
    ensures forall k :: k in Occurrences(seen) ==> Occurrences(seen)[k] == multiset(seen)[k]
  {
  }

  /** The dictionary the `reduce` builds from the keys `seen`: each key
      mapped to its number of occurrences. */
  ghost function Occurrences(seen: seq<string>): map<string, nat> {
    map k | k in seen :: multiset(seen)[k]
  }

  /** The `reduce` callback: `acc[value] = (acc[value] || 0) + 1`, a key
      absent so far being created (and so listed last) at 1. */
  method AddKey(created: seq<string>, counts: map<string, nat>, ghost seen: seq<string>, value: string)
    returns (created': seq<string>, counts': map<string, nat>)
    requires created == Distinct(seen) && counts == Occurrences(seen)
    ensures created' == Distinct(seen + [value]) && counts' == Occurrences(seen + [value])
  {
    DistinctSnoc(seen, value);
    OccurrencesSnoc(seen, value);
    if value in counts {
      created' := created;
      counts' := counts[value := counts[value] + 1];
    } else {
      created' := created + [value];
      counts' := counts[value := 1];
    }
  }

  /** One more key either increments its count or enters at 1. */
  lemma OccurrencesSnoc(seen: seq<string>, value: string)
    ensures value in seen ==> Occurrences(seen + [value]) == Occurrences(seen)[value := Occurrences(seen)[value] + 1]
    ensures value !in seen ==> Occurrences(seen + [value]) == Occurrences(seen)[value := 1]
  {
    var t := seen + [value];
    assert multiset(t) == multiset(seen) + multiset{value};
    assert forall k :: k in t <==> k in seen || k == value;
  }

  /** `Object.entries(counts).map(...)`, given the keys in the order
      `Object.entries` lists them. */
  method ListEntries(order: seq<string>, counts: map<string, nat>, ghost keys: seq<string>) returns (entries: seq<StatItem>)
    requires forall k :: k in order ==> k in counts && counts[k] == multiset(keys)[k]
    ensures entries == Counted(order, keys)
  {
    entries := [];
    for j := 0 to |order|
      invariant |entries| == j
      invariant forall m :: 0 <= m < j ==> entries[m] == StatItem(order[m], multiset(keys)[order[m]])
    {
      assert order[j] in order;
      entries := entries + [StatItem(order[j], counts[order[j]])];
    }
  }

  /** `generateTopStats` (Dashboard.tsx:11-22): count, list the entries,
      sort them by descending count and keep the first `topN`. */
  method GenerateTopStats(alerts: seq<Alert>, c: Column, topN: nat) returns (stats: seq<StatItem>)
    ensures stats == TopStats(alerts, c, topN)
  {
    var created, counts := CountKeys(alerts, c);
    var order := EntryOrder(created);
    forall k | k in order ensures k in counts && counts[k] == multiset(KeysOf(alerts, c))[k] {
      assert k in multiset(created);
    }
    var entries := ListEntries(order, counts, KeysOf(alerts, c));
    stats := Take(SortBy(entries, ByCount), topN);
  }

  // ---------------------------------------------------------------------
  // Properties of the ranking

  function Count(e: StatItem): int {
    e.count
  }

  /** The sum over `order` of each key's occurrences in `keys`. */
  function Tally(order: seq<string>, keys: seq<string>): int {
    if order == [] then 0 else multiset(keys)[order[0]] + Tally(order[1..], keys)
  }

  lemma {:induction false} CountedSum(order: seq<string>, keys: seq<string>)
    ensures SumOf(Counted(order, keys), Count) == Tally(order, keys)
  {
    if order != [] {
      CountedSum(order[1..], keys);
      assert Counted(order, keys)[1..] == Counted(order[1..], keys);
    }
  }

  lemma {:induction false} TallyCons(order: seq<string>, x: string, keys: seq<string>)
    ensures Tally(order, [x] + keys) == Tally(order, keys) + multiset(order)[x]
  {
    if order != [] {
      TallyCons(order[1..], x, keys);
      assert order == [order[0]] + order[1..];
    }
  }

  lemma {:induction false} TallyAll(order: seq<string>, keys: seq<string>)
    requires forall k :: k in keys ==> k in order
    requires forall x :: multiset(order)[x] <= 1
    ensures Tally(order, keys) == |keys|
  {
    if keys == [] {
      TallyNone(order);
    } else {
      TallyAll(order, keys[1..]);
      assert keys == [keys[0]] + keys[1..];
      assert keys[0] in keys;
      assert keys[0] in multiset(order);
      TallyCons(order, keys[0], keys[1..]);
    }
  }

  lemma {:induction false} TallyNone(order: seq<string>)
    ensures Tally(order, []) == 0
  {
    if order != [] {
      TallyNone(order[1..]);
    }
  }

  /** The entries' order is a permutation of the distinct keys, each once. */
  lemma EntryOrderOnce(keys: seq<string>)
    ensures forall x :: multiset(EntryOrder(Distinct(keys)))[x] <= 1
    ensures forall k :: k in EntryOrder(Distinct(keys)) <==> k in keys
    ensures |EntryOrder(Distinct(keys))| == |Distinct(keys)|
  {
    var d := Distinct(keys);
    NoDuplicatesOnce(d);
    assert |multiset(EntryOrder(d))| == |multiset(d)|;
    forall k ensures k in EntryOrder(d) <==> k in keys {
      assert k in EntryOrder(d) <==> k in multiset(d);
    }
  }

  /** The counts over all distinct keys add up to the number of alerts. */
  lemma CountsSumToTotal(alerts: seq<Alert>, c: Column)
    ensures SumOf(Entries(alerts, c), Count) == |alerts|
  {
    var keys := KeysOf(alerts, c);
    var order := EntryOrder(Distinct(keys));
    EntryOrderOnce(keys);
    CountedSum(order, keys);
    TallyAll(order, keys);
  }

  /** Every reported item names a key that occurs, with its number of
      occurrences as count. */
  lemma TopStatsCounts(alerts: seq<Alert>, c: Column, topN: nat)
    ensures forall e :: e in TopStats(alerts, c, topN) ==>
              e.name in KeysOf(alerts, c) && e.count == multiset(KeysOf(alerts, c))[e.name] && e.count >= 1
  {
    var keys := KeysOf(alerts, c);
    var entries := Entries(alerts, c);
    var sorted := SortBy(entries, ByCount);
    EntriesCount(alerts, c);
    forall e | e in TopStats(alerts, c, topN)
      ensures e.name in keys && e.count == multiset(keys)[e.name] && e.count >= 1
    {
      assert e in sorted;
      assert e in multiset(entries);
    }
  }

  /** Every entry names a key met and holds its number of occurrences. */
  lemma EntriesCount(alerts: seq<Alert>, c: Column)
    ensures forall e :: e in Entries(alerts, c) ==>
              e.name in KeysOf(alerts, c) && e.count == multiset(KeysOf(alerts, c))[e.name] && e.count >= 1
  {
    var keys := KeysOf(alerts, c);
    CountedItems(EntryOrder(Distinct(keys)), keys);
    EntryOrderOnce(keys);
  }

  lemma CountedItems(order: seq<string>, keys: seq<string>)
    ensures forall e :: e in Counted(order, keys) ==> e.name in order && e.count == multiset(keys)[e.name]
  {
    var items := Counted(order, keys);
    forall e | e in items ensures e.name in order && e.count == multiset(keys)[e.name] {
      var j :| 0 <= j < |items| && items[j] == e;
      assert order[j] in order;
    }
  }

  /** The ranking is ordered by descending count. */
  lemma TopStatsDescending(alerts: seq<Alert>, c: Column, topN: nat)
    ensures var r := TopStats(alerts, c, topN);
            forall i, j :: 0 <= i < j < |r| ==> r[i].count >= r[j].count
  {
    var sorted := SortBy(Entries(alerts, c), ByCount);
    var r := TopStats(alerts, c, topN);
    forall i, j | 0 <= i < j < |r| ensures r[i].count >= r[j].count {
      assert r[i] == sorted[i] && r[j] == sorted[j];
      assert ByCount(sorted[i]) <= ByCount(sorted[j]);
    }
  }

  /** There are `topN` items, or one per distinct key when there are fewer
      keys; no alerts give no items. */
  lemma TopStatsLength(alerts: seq<Alert>, c: Column, topN: nat)
    ensures var distinct := |Distinct(KeysOf(alerts, c))|;
            |TopStats(alerts, c, topN)| == if topN < distinct then topN else distinct
    ensures alerts == [] ==> TopStats(alerts, c, topN) == []
  {
    EntryOrderOnce(KeysOf(alerts, c));
  }

  /** The rank of an item: where its name first occurs among `keys`. */
  function FirstSeen(keys: seq<string>, e: StatItem): int {
    if e.name in keys then FirstIndex(keys, e.name) else |keys|
  }

  /** Without array-index keys, `Object.entries` keeps creation order. */
  lemma EntryOrderPlain(keys: seq<string>)
    requires forall k :: k in keys ==> !IsArrayIndex(k)
    ensures EntryOrder(keys) == keys
  {
    FilterNone(keys, IsArrayIndex);
    FilterAll(keys, NotArrayIndex);
  }

  /** Without array-index keys, the entries list the keys in order of
      first occurrence. */
  lemma EntriesInEncounterOrder(alerts: seq<Alert>, c: Column)
    requires forall k :: k in KeysOf(alerts, c) ==> !IsArrayIndex(k)
    ensures var entries := Entries(alerts, c);
            forall i, j :: 0 <= i < j < |entries| ==>
              FirstSeen(KeysOf(alerts, c), entries[i]) < FirstSeen(KeysOf(alerts, c), entries[j])
  {
    var keys := KeysOf(alerts, c);
    var d := Distinct(keys);
    EntryOrderPlain(d);
    var entries := Entries(alerts, c);
    forall i, j | 0 <= i < j < |entries| ensures FirstSeen(keys, entries[i]) < FirstSeen(keys, entries[j]) {
      assert entries[i].name == d[i] && entries[j].name == d[j];
    }
  }

  /** Items that tie on count keep the order of their first occurrence,
      provided no key is an array index (which `Object.entries` would list
      first). */
  lemma TiesInEncounterOrder(alerts: seq<Alert>, c: Column, topN: nat)
    requires forall k :: k in KeysOf(alerts, c) ==> !IsArrayIndex(k)
    ensures var keys := KeysOf(alerts, c);
            var r := TopStats(alerts, c, topN);
            forall i, j :: 0 <= i < j < |r| && r[i].count == r[j].count ==>
              r[i].name in keys && r[j].name in keys && FirstIndex(keys, r[i].name) < FirstIndex(keys, r[j].name)
  {
    var keys := KeysOf(alerts, c);
    var entries := Entries(alerts, c);
    var rank := (e: StatItem) => FirstSeen(keys, e);
    EntriesInEncounterOrder(alerts, c);
    SortByTiesRanked(entries, ByCount, rank);
    var sorted := SortBy(entries, ByCount);
    var r := TopStats(alerts, c, topN);
    TopStatsCounts(alerts, c, topN);
    forall i, j | 0 <= i < j < |r| && r[i].count == r[j].count
      ensures r[i].name in keys && r[j].name in keys && FirstIndex(keys, r[i].name) < FirstIndex(keys, r[j].name)
    {
      assert r[i] == sorted[i] && r[j] == sorted[j];
      assert r[i] in r && r[j] in r;
      assert ByCount(sorted[i]) == ByCount(sorted[j]);
    }
  }

  /** Array-index keys come first in the entries, in ascending numeric
      order. */
  lemma IndexKeysFirst(keys: seq<string>)
    ensures var order := EntryOrder(keys);
            forall i, j :: 0 <= i < j < |order| && IsArrayIndex(order[j]) ==>
              IsArrayIndex(order[i]) && DigitsValue(order[i]) <= DigitsValue(order[j])
  {
    var filtered := Filter(keys, IsArrayIndex);
    var indices := SortBy(filtered, IndexValue);
    var others := Filter(keys, NotArrayIndex);
    forall x | x in indices ensures IsArrayIndex(x) {
      assert x in multiset(filtered);
    }
    SortedPartFirst(indices, others, IsArrayIndex, IndexValue);
  }

  /** In `sorted + rest`, where the elements of `sorted` and only those
      satisfy `p` and `sorted` ascends by `v`, every element satisfying
      `p` is preceded only by such elements, with no greater `v`. */
  lemma SortedPartFirst(sorted: seq<string>, rest: seq<string>, p: string -> bool, v: string -> int)
    requires SortedBy(sorted, v)
    requires forall x :: x in sorted ==> p(x)
    requires forall x :: x in rest ==> !p(x)
    ensures var order := sorted + rest;
            forall i, j :: 0 <= i < j < |order| && p(order[j]) ==> p(order[i]) && v(order[i]) <= v(order[j])
  {
    var order := sorted + rest;
    forall i, j | 0 <= i < j < |order| && p(order[j])
      ensures p(order[i]) && v(order[i]) <= v(order[j])
    {
      assert j < |sorted|;
      assert order[i] == sorted[i];
    }
  }

  lemma KeysOfCons(alerts: seq<Alert>, c: Column)
    requires alerts != []
    ensures multiset(KeysOf(alerts, c)) == multiset{GroupKey(alerts[0], c)} + multiset(KeysOf(alerts[1..], c))
  {
    assert KeysOf(alerts, c) == [GroupKey(alerts[0], c)] + KeysOf(alerts[1..], c);
  }

  /** A key other than `'N/A'` counts the alerts whose field is that
      key. */
  lemma KeyCount(alerts: seq<Alert>, c: Column, k: string)
    requires k != [] && k != NotAvailable
    ensures multiset(KeysOf(alerts, c))[k] == |Filter(alerts, a => FieldOf(a, c) == k)|
  {
    CountMatching(alerts, c, k, a => FieldOf(a, c) == k);
  }

  lemma {:induction false} CountMatching(alerts: seq<Alert>, c: Column, k: string, p: Alert -> bool)
    requires k != [] && k != NotAvailable
    requires forall a :: p(a) <==> FieldOf(a, c) == k
    ensures multiset(KeysOf(alerts, c))[k] == |Filter(alerts, p)|
  {
    if alerts != [] {
      CountMatching(alerts[1..], c, k, p);
      KeysOfCons(alerts, c);
      if p(alerts[0]) {
        assert GroupKey(alerts[0], c) == k;
        assert Filter(alerts, p) == [alerts[0]] + Filter(alerts[1..], p);
      } else {
        assert GroupKey(alerts[0], c) != k;
        assert Filter(alerts, p) == Filter(alerts[1..], p);
      }
    }
  }

  /** Falsy fields are counted under `'N/A'`, together with fields that
      literally read `'N/A'`. */
  lemma {:induction false} FalsyCountedAsNotAvailable(alerts: seq<Alert>, c: Column)
    ensures multiset(KeysOf(alerts, c))[NotAvailable] ==
              |Filter(alerts, a => FieldOf(a, c) == [] || FieldOf(a, c) == NotAvailable)|
  {
    if alerts != [] {
      FalsyCountedAsNotAvailable(alerts[1..], c);
      KeysOfCons(alerts, c);
    }
  }

  /** The empty string is never a key. */
  lemma NoEmptyKey(alerts: seq<Alert>, c: Column)
    ensures multiset(KeysOf(alerts, c))[[]] == 0
  {
    assert [] !in KeysOf(alerts, c);
  }

  // ---------------------------------------------------------------------
  // The counters

  predicate IsHigh(a: Alert) {
    a.velocidad >= 80
  }

  predicate IsMedium(a: Alert) {
    a.velocidad >= 50 && a.velocidad < 80
  }

  predicate BelowHigh(a: Alert) {
    a.velocidad < 80
  }

  /** `alerts.filter(a => a.velocidad >= 80).length`. */
  function HighSpeedCount(alerts: seq<Alert>): (n: nat)
    ensures n <= |alerts|
    ensures n == 0 <==> forall a :: a in alerts ==> a.velocidad < 80
  {
    var high := Filter(alerts, IsHigh);
    assert forall a :: a in alerts && IsHigh(a) ==> multiset(high)[a] > 0;
    |high|
  }

  /** `alerts.filter(a => a.velocidad >= 50 && a.velocidad < 80).length`. */
  function MediumSpeedCount(alerts: seq<Alert>): (n: nat)
    ensures n <= |alerts|
    ensures n == 0 <==> forall a :: a in alerts ==> a.velocidad < 50 || a.velocidad >= 80
  {
    var medium := Filter(alerts, IsMedium);
    assert forall a :: a in alerts && IsMedium(a) ==> multiset(medium)[a] > 0;
    |medium|
  }

  /** `new Set(alerts.map(a => a.placa)).size`. */
  function UniqueVehicles(alerts: seq<Alert>): (n: nat)
    ensures n <= |alerts|
    ensures alerts != [] ==> n >= 1
  {
    PlateSet(alerts);
    |set a | a in alerts :: a.placa|
  }

  function Plates(alerts: seq<Alert>): seq<string> {
    seq(|alerts|, i requires 0 <= i < |alerts| => alerts[i].placa)
  }

  /** When every alert is at least 50 km/h, as every loaded alert is, the
      high and medium counters split the alerts between them. */
  lemma SpeedBandsCover(alerts: seq<Alert>)
    requires forall a :: a in alerts ==> a.velocidad >= 50
    ensures HighSpeedCount(alerts) + MediumSpeedCount(alerts) == |alerts|
  {
    FilterSplitsLength(alerts, IsHigh, IsMedium);
  }

  /** The high and medium counters never overlap and never exceed the
      number of alerts. */
  lemma SpeedBandsBounded(alerts: seq<Alert>)
    ensures HighSpeedCount(alerts) + MediumSpeedCount(alerts) <= |alerts|
  {
    FilterSplitsLength(alerts, IsHigh, BelowHigh);
    FilterWeaker(alerts, IsMedium, BelowHigh);
  }

  lemma {:induction false} FilterWeaker(s: seq<Alert>, p: Alert -> bool, q: Alert -> bool)
    requires forall x :: x in s ==> p(x) ==> q(x)
    ensures |Filter(s, p)| <= |Filter(s, q)|
  {
    if s != [] {
      FilterWeaker(s[1..], p, q);
    }
  }

  /** The unique-vehicle counter is the number of distinct plates: at most
      the number of alerts, and at least one when there are alerts. */
  lemma UniqueVehiclesCount(alerts: seq<Alert>)
    ensures UniqueVehicles(alerts) == |Distinct(Plates(alerts))|
    ensures UniqueVehicles(alerts) <= |alerts|
    ensures alerts != [] ==> UniqueVehicles(alerts) >= 1
  {
    PlateSet(alerts);
  }

  /** The set of plates has one element per distinct plate. */
  lemma PlateSet(alerts: seq<Alert>)
    ensures |set a | a in alerts :: a.placa| == |Distinct(Plates(alerts))| <= |alerts|
    ensures alerts != [] ==> |set a | a in alerts :: a.placa| >= 1
  {
    var plates := Plates(alerts);
    var d := Distinct(plates);
    DistinctCardinality(d);
    assert (set a | a in alerts :: a.placa) == (set x | x in d) by {
      forall x | x in d ensures x in set a | a in alerts :: a.placa {
        var i :| 0 <= i < |plates| && plates[i] == x;
        assert alerts[i] in alerts;
      }
      forall a | a in alerts ensures a.placa in d {
        var i :| 0 <= i < |alerts| && alerts[i] == a;
        assert plates[i] == a.placa;
      }
    }
    if alerts != [] {
      assert plates[0] in d;
    }
  }
}
