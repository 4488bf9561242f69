/**
 * The summary computations of the older summary page: grouping devices by
 * description, protection and cable; the histogram of protection values;
 * and the summary built from the page's fixed device table.
 */
module Aggregation {
  import opened SummaryTypes
  import opened Tally
  import opened Sorting

  // ---------------------------------------------------------------- grouping

  /** The grouping key: the three fields joined with `|`. Keys are compared as strings, so fields containing `|` can collide. */
  function GroupKey(d: DeviceRow): string {
    d.kuvateksti + "|" + d.suoja + "|" + d.kaapeli
  }

  /** The key a group stands for, rebuilt from its own fields. */
  function GroupKeyOf(g: AggregatedDevice): string {
    g.kuvateksti + "|" + g.suoja + "|" + g.kaapeli
  }

  function Keys(ds: seq<DeviceRow>): (ks: seq<string>)
    ensures |ks| == |ds| && forall i :: 0 <= i < |ds| ==> ks[i] == GroupKey(ds[i])
  {
    seq(|ds|, i requires 0 <= i < |ds| => GroupKey(ds[i]))
  }

  /** The device numbers of the devices with key `k`, in input order. */
  function NrosWithKey(ds: seq<DeviceRow>, k: string): seq<string> {
    if ds == [] then []
    else NroIf(ds[0], k) + NrosWithKey(ds[1..], k)
  }

  /** The group of key `k`: fields and symbol of the first device with that key, every matching device counted and its number listed. */
  function GroupFor(ds: seq<DeviceRow>, k: string): (g: AggregatedDevice)
    requires k in Keys(ds)
    ensures GroupKeyOf(g) == k
    ensures g.count == Count(Keys(ds), k) >= 1
  {
    var first := ds[FirstIndex(Keys(ds), k)];
    var nros := NrosWithKey(ds, k);
    NrosWithKeyCount(ds, k);
    AggregatedDevice(first.kuvateksti, first.suoja, first.kaapeli, first.symbol, |nros|, nros)
  }

  /** The groups in the order their keys were first seen (the value order of an insertion-ordered `Map`). */
  function Groups(ds: seq<DeviceRow>): (gs: seq<AggregatedDevice>)
    ensures |gs| == |Distinct(Keys(ds))|
    ensures forall i :: 0 <= i < |gs| ==> gs[i] == GroupFor(ds, Distinct(Keys(ds))[i])
  {
    var ks := Distinct(Keys(ds));
    seq(|ks|, i requires 0 <= i < |ks| => GroupFor(ds, ks[i]))
  }

  /** Sort key for "descending by count" (comparator `b.count - a.count`). */
  function ByCountDesc(g: AggregatedDevice): int { -(g.count as int) }

  function CountOf(g: AggregatedDevice): int { g.count }

  /** The specification of `AggregateDevices`: the first-seen groups, stably sorted by descending count. */
  function Aggregated(ds: seq<DeviceRow>): seq<AggregatedDevice> {
    SortBy(Groups(ds), ByCountDesc)
  }

  lemma {:induction false} KeysSnoc(ds: seq<DeviceRow>, d: DeviceRow)
    ensures Keys(ds + [d]) == Keys(ds) + [GroupKey(d)]
  {
  }

  /** The number of `d` if it carries key `k`. */
  function NroIf(d: DeviceRow, k: string): seq<string> {
    if GroupKey(d) == k then [d.nro] else []
  }

  lemma {:induction false} NrosWithKeySnoc(ds: seq<DeviceRow>, d: DeviceRow, k: string)
    ensures NrosWithKey(ds + [d], k) == NrosWithKey(ds, k) + NroIf(d, k)
  {
    if ds == [] {
      assert [] + [d] == [d] && [d][1..] == [];
    } else {
      var ds' := ds + [d];
      assert ds'[0] == ds[0] && ds'[1..] == ds[1..] + [d];
      calc {
        NrosWithKey(ds', k);
        NroIf(ds[0], k) + NrosWithKey(ds[1..] + [d], k);
        { NrosWithKeySnoc(ds[1..], d, k); }
        NroIf(ds[0], k) + (NrosWithKey(ds[1..], k) + NroIf(d, k));
        (NroIf(ds[0], k) + NrosWithKey(ds[1..], k)) + NroIf(d, k);
      }
    }
  }

  /** A group's size is the number of devices carrying its key. */
  lemma {:induction false} NrosWithKeyCount(ds: seq<DeviceRow>, k: string)
    ensures |NrosWithKey(ds, k)| == Count(Keys(ds), k)
  {
    if ds != [] {
      assert Keys(ds)[1..] == Keys(ds[1..]);
      NrosWithKeyCount(ds[1..], k);
    }
  }

  /** A device with a known key joins that key's group. */
  lemma {:induction false} GroupForJoin(ds: seq<DeviceRow>, d: DeviceRow)
    requires GroupKey(d) in Keys(ds)
    ensures GroupKey(d) in Keys(ds + [d])
    ensures GroupFor(ds + [d], GroupKey(d)) == Joined(GroupFor(ds, GroupKey(d)), d)
  {
    KeysSnoc(ds, d);
    FirstIndexSnoc(Keys(ds), GroupKey(d), GroupKey(d));
    NrosWithKeySnoc(ds, d, GroupKey(d));
  }

  /** A device leaves the groups of the other keys alone. */
  lemma {:induction false} GroupForOther(ds: seq<DeviceRow>, d: DeviceRow, k: string)
    requires k in Keys(ds) && GroupKey(d) != k
    ensures k in Keys(ds + [d])
    ensures GroupFor(ds + [d], k) == GroupFor(ds, k)
  {
    KeysSnoc(ds, d);
    FirstIndexSnoc(Keys(ds), GroupKey(d), k);
    NrosWithKeySnoc(ds, d, k);
  }

  /** A device with a new key opens a group of one. */
  lemma {:induction false} GroupForOpen(ds: seq<DeviceRow>, d: DeviceRow)
    requires GroupKey(d) !in Keys(ds)
    ensures GroupKey(d) in Keys(ds + [d])
    ensures GroupFor(ds + [d], GroupKey(d)) == Opened(d)
  {
    KeysSnoc(ds, d);
    FirstIndexSnoc(Keys(ds), GroupKey(d), GroupKey(d));
    NrosWithKeySnoc(ds, d, GroupKey(d));
    NrosWithKeyCount(ds, GroupKey(d));
  }

  /** A device joining an existing group: one more, and its number appended. */
  function Joined(g: AggregatedDevice, d: DeviceRow): AggregatedDevice {
    g.(count := g.count + 1, nros := g.nros + [d.nro])
  }

  /** The group a device opens when its key is new. */
  function Opened(d: DeviceRow): AggregatedDevice {
    AggregatedDevice(d.kuvateksti, d.suoja, d.kaapeli, d.symbol, 1, [d.nro])
  }

  /** The map built by the grouping loop after the devices `ds`, one device at a time. */
  function GroupMap(ds: seq<DeviceRow>): map<string, AggregatedDevice> {
    if ds == [] then map[]
    else
      var m, d := GroupMap(ds[..|ds| - 1]), ds[|ds| - 1];
      if GroupKey(d) in m then m[GroupKey(d) := Joined(m[GroupKey(d)], d)]
      else m[GroupKey(d) := Opened(d)]
  }

  /** The loop's map holds exactly the keys of the devices, each with the group of all devices carrying it. */
  lemma {:induction false} GroupMapAt(ds: seq<DeviceRow>, k: string)
    ensures k in GroupMap(ds) <==> k in Keys(ds)
    ensures k in GroupMap(ds) ==> GroupMap(ds)[k] == GroupFor(ds, k)
  {
    if ds != [] {
      var p, d := ds[..|ds| - 1], ds[|ds| - 1];
      assert ds == p + [d];
      GroupMapAt(p, k);
      KeysSnoc(p, d);
      if k == GroupKey(d) {
        GroupMapAt(p, k);
        if k in Keys(p) {
          GroupForJoin(p, d);
        } else {
          GroupForOpen(p, d);
        }
      } else if k in Keys(p) {
        GroupForOther(p, d, k);
      }
    }
  }

  lemma {:induction false} GroupMapGroups(ds: seq<DeviceRow>)
    ensures forall j :: 0 <= j < |Distinct(Keys(ds))| ==> Distinct(Keys(ds))[j] in GroupMap(ds)
    ensures var ks := Distinct(Keys(ds));
      seq(|ks|, j requires 0 <= j < |ks| => GroupMap(ds)[ks[j]]) == Groups(ds)
  {
    var ks := Distinct(Keys(ds));
    forall j | 0 <= j < |ks| ensures ks[j] in GroupMap(ds) && GroupMap(ds)[ks[j]] == GroupFor(ds, ks[j]) {
      GroupMapAt(ds, ks[j]);
    }
  }

  /** One step of the grouping loop: how the map and its key order grow with one more device. */
  lemma {:induction false} GroupMapSnoc(ds: seq<DeviceRow>, d: DeviceRow)
    ensures var m, key := GroupMap(ds), GroupKey(d);
      GroupMap(ds + [d]) == (if key in m then m[key := Joined(m[key], d)] else m[key := Opened(d)])
  {
    var ds' := ds + [d];
    assert ds'[..|ds'| - 1] == ds && ds'[|ds'| - 1] == d;
  }

  /** The key order grows exactly when a device brings a key the map does not hold yet. */
  lemma {:induction false} KeyOrderSnoc(ds: seq<DeviceRow>, d: DeviceRow)
    ensures var key := GroupKey(d);
      Distinct(Keys(ds + [d])) == (if key in GroupMap(ds) then Distinct(Keys(ds)) else Distinct(Keys(ds)) + [key])
  {
    var key := GroupKey(d);
    assert key in GroupMap(ds) <==> key in Distinct(Keys(ds)) by {
      GroupMapAt(ds, key);
      DistinctMembership(Keys(ds), key);
    }
    KeysSnoc(ds, d);
    DistinctSnoc(Keys(ds), key);
  }

  /**
   * `aggregateDevices`: one pass over the devices filling an insertion-ordered
   * map from key to group (a new key opens a group of one, a known key
   * increments its count and appends the device number), then the groups
   * sorted by descending count.
   */
  method AggregateDevices(devices: seq<DeviceRow>) returns (result: seq<AggregatedDevice>)
    ensures result == Aggregated(devices)
    ensures SumOf(result, CountOf) == |devices|
    ensures forall i, j :: 0 <= i < j < |result| ==> result[i].count >= result[j].count
  {
    var grouped: map<string, AggregatedDevice> := map[];
    var order: seq<string> := [];  // the map's insertion order
    var i := 0;
    while i < |devices|
      invariant 0 <= i <= |devices|
      invariant grouped == GroupMap(devices[..i])
      invariant order == Distinct(Keys(devices[..i]))
    {
      var device := devices[i];
      var key := GroupKey(device);
      assert devices[..i + 1] == devices[..i] + [device];
      GroupMapSnoc(devices[..i], device);
      KeyOrderSnoc(devices[..i], device);
      if key in grouped {
        var existing := grouped[key];
        grouped := grouped[key := Joined(existing, device)];
      } else {
        grouped := grouped[key := Opened(device)];
        order := order + [key];
      }
      i := i + 1;
    }
    assert devices[..i] == devices;
    GroupMapGroups(devices);
    var values := seq(|order|, j requires 0 <= j < |order| => grouped[order[j]]);
    result := SortBy(values, ByCountDesc);
    AggregatedTotal(devices);
    AggregatedNonIncreasing(devices);
  }

  lemma {:induction false} SumOverKeys(ds: seq<DeviceRow>, ks: seq<string>)
    requires forall i :: 0 <= i < |ks| ==> ks[i] in Keys(ds)
    ensures SumOf(seq(|ks|, i requires 0 <= i < |ks| => GroupFor(ds, ks[i])), CountOf) == SumCounts(ks, Keys(ds))
  {
    var gs := seq(|ks|, i requires 0 <= i < |ks| => GroupFor(ds, ks[i]));
    if ks != [] {
      assert gs[1..] == seq(|ks[1..]|, i requires 0 <= i < |ks[1..]| => GroupFor(ds, ks[1..][i]));
      SumOverKeys(ds, ks[1..]);
    }
  }

  /** Every device is counted in exactly one group: the counts add up to the number of devices. */
  lemma {:induction false} AggregatedTotal(ds: seq<DeviceRow>)
    ensures SumOf(Aggregated(ds), CountOf) == |ds|
  {
    var ks := Distinct(Keys(ds));
    SumOverKeys(ds, ks);
    assert Groups(ds) == seq(|ks|, i requires 0 <= i < |ks| => GroupFor(ds, ks[i]));
    SumOfDistinctCounts(Keys(ds));
    SortBySum(Groups(ds), ByCountDesc, CountOf);
  }

  /** The groups come out in non-increasing order of count. */
  lemma {:induction false} AggregatedNonIncreasing(ds: seq<DeviceRow>)
    ensures forall i, j :: 0 <= i < j < |Aggregated(ds)| ==> Aggregated(ds)[i].count >= Aggregated(ds)[j].count
  {
    SortBySorted(Groups(ds), ByCountDesc);
  }

  /** Ties keep first-seen order: the groups of any one size appear in the order their keys first occurred in the input. */
  lemma {:induction false} AggregatedTiesFirstSeen(ds: seq<DeviceRow>, v: int)
    ensures WithKey(Aggregated(ds), ByCountDesc, v) == WithKey(Groups(ds), ByCountDesc, v)
  {
    SortByStable(Groups(ds), ByCountDesc, v);
  }

  /** The group of `k` carries the fields of the first device with key `k` and lists the numbers of exactly the devices with that key. */
  lemma {:induction false} GroupForContents(ds: seq<DeviceRow>, k: string)
    requires k in Keys(ds)
    ensures var g := GroupFor(ds, k);
      && |g.nros| == g.count
      && exists f :: 0 <= f < |ds| && GroupKey(ds[f]) == k
           && (forall j :: 0 <= j < f ==> GroupKey(ds[j]) != k)
           && g.kuvateksti == ds[f].kuvateksti && g.suoja == ds[f].suoja
           && g.kaapeli == ds[f].kaapeli && g.symbol == ds[f].symbol
  {
    var f := FirstIndex(Keys(ds), k);
    forall j | 0 <= j < f ensures GroupKey(ds[j]) != k {
      assert Keys(ds)[..f][j] == GroupKey(ds[j]);
    }
  }

  lemma {:induction false} NrosWithKeyMembers(ds: seq<DeviceRow>, k: string)
    ensures forall n :: n in NrosWithKey(ds, k) <==> exists i :: 0 <= i < |ds| && GroupKey(ds[i]) == k && ds[i].nro == n
  {
    if ds != [] {
      NrosWithKeyMembers(ds[1..], k);
      forall n | (exists i :: 0 <= i < |ds| && GroupKey(ds[i]) == k && ds[i].nro == n)
        ensures n in NrosWithKey(ds, k)
      {
        var i :| 0 <= i < |ds| && GroupKey(ds[i]) == k && ds[i].nro == n;
        if i > 0 {
          assert ds[1..][i - 1] == ds[i];
        }
      }
    }
  }

  lemma {:induction false} AggregatedMembers(ds: seq<DeviceRow>)
    ensures forall a :: 0 <= a < |Aggregated(ds)| ==> Aggregated(ds)[a] in Groups(ds)
  {
    var r := Aggregated(ds);
    forall a | 0 <= a < |r| ensures r[a] in Groups(ds) {
      assert r[a] in multiset(r);
    }
  }

  /** No two groups share a key. */
  lemma {:induction false} AggregatedKeysDistinct(ds: seq<DeviceRow>)
    ensures var r := Aggregated(ds);
      forall a, b :: 0 <= a < b < |r| ==> GroupKeyOf(r[a]) != GroupKeyOf(r[b])
  {
    var gs, r := Groups(ds), Aggregated(ds);
    assert NoDuplicates(gs);
    PermutationNoDuplicates(gs, r);
    AggregatedMembers(ds);
    forall a, b | 0 <= a < b < |r| ensures GroupKeyOf(r[a]) != GroupKeyOf(r[b]) {
      var ia :| 0 <= ia < |gs| && gs[ia] == r[a];
      var ib :| 0 <= ib < |gs| && gs[ib] == r[b];
      assert r[a] != r[b];
    }
  }

  /** Every device's key has a group. */
  lemma {:induction false} AggregatedCoversDevices(ds: seq<DeviceRow>)
    ensures var r := Aggregated(ds);
      forall i :: 0 <= i < |ds| ==> exists a :: 0 <= a < |r| && GroupKeyOf(r[a]) == GroupKey(ds[i])
  {
    var gs, r, ks := Groups(ds), Aggregated(ds), Distinct(Keys(ds));
    forall i | 0 <= i < |ds| ensures exists a :: 0 <= a < |r| && GroupKeyOf(r[a]) == GroupKey(ds[i]) {
      assert Keys(ds)[i] == GroupKey(ds[i]);
      var j :| 0 <= j < |ks| && ks[j] == GroupKey(ds[i]);
      assert gs[j] in multiset(r);
    }
  }

  /** Each group's count is the number of devices with its key. */
  lemma {:induction false} AggregatedCounts(ds: seq<DeviceRow>)
    ensures var r := Aggregated(ds);
      forall a :: 0 <= a < |r| ==> r[a].count == Count(Keys(ds), GroupKeyOf(r[a]))
  {
    AggregatedMembers(ds);
  }

  /** Devices with equal keys form a single group. */
  lemma {:induction false} SameKeyOneGroup(d1: DeviceRow, d2: DeviceRow)
    requires GroupKey(d1) == GroupKey(d2)
    ensures |Aggregated([d1, d2])| == 1
  {
    var k := GroupKey(d1);
    assert Keys([d1, d2]) == [k, k];
    assert [k, k][..1] == [k];
    assert [k][..0] == [];
    assert Distinct([k]) == [k];
    assert Distinct(Keys([d1, d2])) == [k];
    var gs := Groups([d1, d2]);
    assert |Aggregated([d1, d2])| == |multiset(Aggregated([d1, d2]))| == |multiset(gs)| == |gs|;
  }

  /** The key is a joined string: two devices with different fields can share a group. */
  lemma KeyCollision()
    ensures var d1 := DeviceRow("1-1", 1, 1, "", "0101", "a|b", "c", "d");
            var d2 := DeviceRow("1-2", 1, 2, "", "0102", "a", "b|c", "d");
            d1.kuvateksti != d2.kuvateksti && GroupKey(d1) == GroupKey(d2)
              && |Aggregated([d1, d2])| == 1
  {
    var d1 := DeviceRow("1-1", 1, 1, "", "0101", "a|b", "c", "d");
    var d2 := DeviceRow("1-2", 1, 2, "", "0102", "a", "b|c", "d");
    assert GroupKey(d1) == "a|b|c|d" == GroupKey(d2);
    SameKeyOneGroup(d1, d2);
  }

  // ------------------------------------------------------ protection values

  function Suojas(ds: seq<DeviceRow>): (ss: seq<string>)
    ensures |ss| == |ds| && forall i :: 0 <= i < |ds| ==> ss[i] == ds[i].suoja
  {
    seq(|ds|, i requires 0 <= i < |ds| => ds[i].suoja)
  }

  /**
   * `Math.round(c / t * 100)` for `0 <= c` and `0 < t`, computed exactly:
   * the whole number nearest to `100c/t`, halves rounded up.
   */
  function RoundPercent(c: nat, t: nat): (p: nat)
    requires t > 0
    ensures 200 * c - t < 2 * p * t <= 200 * c + t
    ensures c <= t ==> p <= 100
  {
    RoundingBounds(c, t);
    (200 * c + t) / (2 * t)
  }

  lemma RoundingBounds(c: nat, t: nat)
    requires t > 0
    ensures var p := (200 * c + t) / (2 * t);
      200 * c - t < 2 * p * t <= 200 * c + t && (c <= t ==> p <= 100)
  {
    var n, q := 200 * c + t, 2 * t;
    var p := n / q;
    assert n == q * p + n % q && 0 <= n % q < q;
    assert q * p == 2 * p * t;
    if c <= t && p > 100 {
      MulMonotone(q, 101, p);
    }
  }

  lemma {:induction false} MulMonotone(q: nat, a: nat, b: nat)
    requires a <= b
    ensures q * a <= q * b
  {
    if a < b {
      MulMonotone(q, a, b - 1);
      assert q * b == q * (b - 1) + q;
    }
  }

  /** The histogram entry of protection value `s`. */
  function EntryFor(ds: seq<DeviceRow>, s: string): ProtectionSummary
    requires s in Suojas(ds)
  {
    var c := Count(Suojas(ds), s);
    ProtectionSummary(s, c, RoundPercent(c, |ds|))
  }

  /** One entry per distinct protection value, in first-seen order. */
  function Entries(ds: seq<DeviceRow>): (es: seq<ProtectionSummary>)
    ensures |es| == |Distinct(Suojas(ds))|
    ensures forall i :: 0 <= i < |es| ==> es[i] == EntryFor(ds, Distinct(Suojas(ds))[i])
  {
    var ss := Distinct(Suojas(ds));
    seq(|ss|, i requires 0 <= i < |ss| => EntryFor(ds, ss[i]))
  }

  function ByCountDescP(e: ProtectionSummary): int { -(e.count as int) }

  function CountOfP(e: ProtectionSummary): int { e.count }

  /** The specification of `GetProtectionBreakdown`: the first-seen entries, stably sorted by descending count. */
  function Breakdown(ds: seq<DeviceRow>): seq<ProtectionSummary> {
    SortBy(Entries(ds), ByCountDescP)
  }

  /** The map's entries turned into histogram entries, in key order (`.entries().map(...)`). */
  function EntriesOf(order: seq<string>, counts: map<string, nat>, total: nat): (es: seq<ProtectionSummary>)
    requires forall j :: 0 <= j < |order| ==> order[j] in counts
    requires |order| > 0 ==> total > 0
    ensures |es| == |order|
    ensures forall j :: 0 <= j < |order| ==> es[j].suoja == order[j] && es[j].count == counts[order[j]]
  {
    seq(|order|, j requires 0 <= j < |order| => ProtectionSummary(order[j], counts[order[j]], RoundPercent(counts[order[j]], total)))
  }

  /** Built from the counting map, the entries are those of the specification. */
  lemma {:induction false} CountMapEntries(ds: seq<DeviceRow>)
    ensures var ss, m := Distinct(Suojas(ds)), CountMap(Suojas(ds));
      && (forall j :: 0 <= j < |ss| ==> ss[j] in m)
      && (|ss| > 0 ==> |ds| > 0)
      && EntriesOf(ss, m, |ds|) == Entries(ds)
  {
    var ss := Distinct(Suojas(ds));
    forall j | 0 <= j < |ss| ensures ss[j] in CountMap(Suojas(ds)) && CountMap(Suojas(ds))[ss[j]] == Count(Suojas(ds), ss[j]) {
      CountMapAt(Suojas(ds), ss[j]);
    }
  }

  /** The counting pass of `getProtectionBreakdown`: devices per protection value, in an insertion-ordered map. */
  method CountBySuoja(devices: seq<DeviceRow>) returns (grouped: map<string, nat>, order: seq<string>)
    ensures grouped == CountMap(Suojas(devices))
    ensures order == Distinct(Suojas(devices))
  {
    grouped := map[];
    order := [];  // the map's insertion order
    ghost var suojas := Suojas(devices);
    var i := 0;
    while i < |devices|
      invariant 0 <= i <= |devices|
      invariant grouped == CountMap(suojas[..i])
      invariant order == Distinct(suojas[..i])
    {
      var device := devices[i];
      assert suojas[..i + 1] == suojas[..i] + [device.suoja];
      CountMapSnoc(suojas[..i], device.suoja);
      var current := if device.suoja in grouped then grouped[device.suoja] else 0;
      if device.suoja !in grouped {
        order := order + [device.suoja];
      }
      grouped := grouped[device.suoja := current + 1];
      i := i + 1;
    }
    assert suojas[..i] == suojas;
  }

  /**
   * `getProtectionBreakdown`: counts the devices per protection value, turns
   * each count into a rounded percentage of all devices, and sorts the
   * entries by descending count.
   */
  method GetProtectionBreakdown(devices: seq<DeviceRow>) returns (result: seq<ProtectionSummary>)
    ensures result == Breakdown(devices)
    ensures SumOf(result, CountOfP) == |devices|
    ensures forall i, j :: 0 <= i < j < |result| ==> result[i].count >= result[j].count
  {
    var grouped, order := CountBySuoja(devices);
    CountMapEntries(devices);
    var total := |devices|;
    var entries := EntriesOf(order, grouped, total);
    result := SortBy(entries, ByCountDescP);
    BreakdownTotal(devices);
    BreakdownNonIncreasing(devices);
  }

  /** The entries come out in non-increasing order of count. */
  lemma {:induction false} BreakdownNonIncreasing(ds: seq<DeviceRow>)
    ensures forall i, j :: 0 <= i < j < |Breakdown(ds)| ==> Breakdown(ds)[i].count >= Breakdown(ds)[j].count
  {
    SortBySorted(Entries(ds), ByCountDescP);
  }

  lemma {:induction false} SumOverSuojas(ds: seq<DeviceRow>, ss: seq<string>)
    requires forall i :: 0 <= i < |ss| ==> ss[i] in Suojas(ds)
    ensures SumOf(seq(|ss|, i requires 0 <= i < |ss| => EntryFor(ds, ss[i])), CountOfP) == SumCounts(ss, Suojas(ds))
  {
    var es := seq(|ss|, i requires 0 <= i < |ss| => EntryFor(ds, ss[i]));
    if ss != [] {
      assert es[1..] == seq(|ss[1..]|, i requires 0 <= i < |ss[1..]| => EntryFor(ds, ss[1..][i]));
      SumOverSuojas(ds, ss[1..]);
    }
  }

  /** The entry counts add up to the number of devices. */
  lemma {:induction false} BreakdownTotal(ds: seq<DeviceRow>)
    ensures SumOf(Breakdown(ds), CountOfP) == |ds|
  {
    var ss := Distinct(Suojas(ds));
    SumOverSuojas(ds, ss);
    assert Entries(ds) == seq(|ss|, i requires 0 <= i < |ss| => EntryFor(ds, ss[i]));
    SumOfDistinctCounts(Suojas(ds));
    SortBySum(Entries(ds), ByCountDescP, CountOfP);
  }

  lemma {:induction false} BreakdownMembers(ds: seq<DeviceRow>)
    ensures forall a :: 0 <= a < |Breakdown(ds)| ==> Breakdown(ds)[a] in Entries(ds)
  {
    var r := Breakdown(ds);
    forall a | 0 <= a < |r| ensures r[a] in Entries(ds) {
      assert r[a] in multiset(r);
    }
  }

  /**
   * Each entry counts the devices with its protection value and carries that
   * count as the nearest whole percentage of all devices (halves up), at most 100.
   */
  lemma {:induction false} BreakdownEntries(ds: seq<DeviceRow>)
    ensures var r, t := Breakdown(ds), |ds|;
      forall a :: 0 <= a < |r| ==>
        && r[a].count == Count(Suojas(ds), r[a].suoja) >= 1
        && 200 * r[a].count - t < 2 * r[a].percentage * t <= 200 * r[a].count + t
        && r[a].percentage <= 100
  {
    BreakdownMembers(ds);
  }

  /** One entry per protection value: no value twice, and every device's value present. */
  lemma {:induction false} BreakdownPartition(ds: seq<DeviceRow>)
    ensures var r := Breakdown(ds);
      && (forall a, b :: 0 <= a < b < |r| ==> r[a].suoja != r[b].suoja)
      && (forall i :: 0 <= i < |ds| ==> exists a :: 0 <= a < |r| && r[a].suoja == ds[i].suoja)
  {
    var es, r, ss := Entries(ds), Breakdown(ds), Distinct(Suojas(ds));
    assert NoDuplicates(es);
    PermutationNoDuplicates(es, r);
    BreakdownMembers(ds);
    forall a, b | 0 <= a < b < |r| ensures r[a].suoja != r[b].suoja {
      var ia :| 0 <= ia < |es| && es[ia] == r[a];
      var ib :| 0 <= ib < |es| && es[ib] == r[b];
      assert r[a] != r[b];
    }
    forall i | 0 <= i < |ds| ensures exists a :: 0 <= a < |r| && r[a].suoja == ds[i].suoja {
      assert Suojas(ds)[i] == ds[i].suoja;
      var j :| 0 <= j < |ss| && ss[j] == ds[i].suoja;
      assert es[j] in multiset(r);
    }
  }

  /** No devices, no entries (and no division by zero). */
  lemma BreakdownEmpty()
    ensures Breakdown([]) == []
  {
    assert Suojas([]) == [];
  }

  // ------------------------------------------------------------ the page data

  /** The fixed device table the summary page shows: 24 devices on three pages. */
  const DummyDevices: seq<DeviceRow> := [
      DeviceRow("1-1", 1, 1, "/symbols/switch-single.svg", "0101", "Kytkin 1-napainen", "16A", "MMJ 3x1.5S"),
      DeviceRow("1-2", 1, 2, "/symbols/switch-double.svg", "0102", "Kytkin 2-napainen", "16A", "MMJ 3x1.5S"),
      DeviceRow("1-3", 1, 3, "/symbols/outlet.svg", "0103", "Pistorasia 1-osainen", "16A", "MMJ 3x2.5S"),
      DeviceRow("1-4", 1, 4, "/symbols/outlet.svg", "0104", "Pistorasia 1-osainen", "16A", "MMJ 3x2.5S"),
      DeviceRow("1-5", 1, 5, "/symbols/outlet-double.svg", "0105", "Pistorasia 2-osainen", "16A", "MMJ 3x2.5S"),
      DeviceRow("1-6", 1, 6, "/symbols/light.svg", "0106", "Valaisinpiste", "10A", "MMJ 3x1.5S"),
      DeviceRow("1-7", 1, 7, "/symbols/light.svg", "0107", "Valaisinpiste", "10A", "MMJ 3x1.5S"),
      DeviceRow("1-8", 1, 8, "/symbols/dimmer.svg", "0108", "Himmennin", "16A", "MMJ 5x1.5S"),
      DeviceRow("2-1", 2, 1, "/symbols/switch-single.svg", "0201", "Kytkin 1-napainen", "16A", "MMJ 3x1.5S"),
      DeviceRow("2-2", 2, 2, "/symbols/switch-single.svg", "0202", "Kytkin 1-napainen", "16A", "MMJ 3x1.5S"),
      DeviceRow("2-3", 2, 3, "/symbols/outlet.svg", "0203", "Pistorasia 1-osainen", "16A", "MMJ 3x2.5S"),
      DeviceRow("2-4", 2, 4, "/symbols/outlet-ip44.svg", "0204", "Pistorasia IP44", "16A", "MMJ 3x2.5S"),
      DeviceRow("2-5", 2, 5, "/symbols/outlet-ip44.svg", "0205", "Pistorasia IP44", "16A", "MMJ 3x2.5S"),
      DeviceRow("2-6", 2, 6, "/symbols/light.svg", "0206", "Valaisinpiste", "10A", "MMJ 3x1.5S"),
      DeviceRow("2-7", 2, 7, "/symbols/light-outdoor.svg", "0207", "Ulkovalaisin", "10A", "MMJ 3x1.5S"),
      DeviceRow("2-8", 2, 8, "/symbols/motion-sensor.svg", "0208", "Liiketunnistin", "10A", "MMJ 3x1.5S"),
      DeviceRow("3-1", 3, 1, "/symbols/distribution.svg", "0301", "Keskus", "25A", "MMJ 5x6S"),
      DeviceRow("3-2", 3, 2, "/symbols/outlet-cee.svg", "0302", "CEE-pistorasia 16A", "16A", "MMJ 5x2.5S"),
      DeviceRow("3-3", 3, 3, "/symbols/outlet-cee.svg", "0303", "CEE-pistorasia 32A", "32A", "MMJ 5x6S"),
      DeviceRow("3-4", 3, 4, "/symbols/outlet.svg", "0304", "Pistorasia 1-osainen", "16A", "MMJ 3x2.5S"),
      DeviceRow("3-5", 3, 5, "/symbols/switch-single.svg", "0305", "Kytkin 1-napainen", "16A", "MMJ 3x1.5S"),
      DeviceRow("3-6", 3, 6, "/symbols/light.svg", "0306", "Valaisinpiste", "10A", "MMJ 3x1.5S"),
      DeviceRow("3-7", 3, 7, "/symbols/light.svg", "0307", "Valaisinpiste", "10A", "MMJ 3x1.5S"),
      DeviceRow("3-8", 3, 8, "/symbols/smoke-detector.svg", "0308", "Palovaroitin", "10A", "MMJ 2x1.5S")
  ]

  /** `getSummaryData`: the fixed devices with their groups, their protection histogram and their number. */
  method GetSummaryData() returns (r: SummaryData)
    ensures r.devices == DummyDevices && r.totalCount == |r.devices| == 24
    ensures r.aggregated == Aggregated(r.devices) && r.byProtection == Breakdown(r.devices)
    ensures SumOf(r.aggregated, CountOf) == r.totalCount
    ensures SumOf(r.byProtection, CountOfP) == r.totalCount
  {
    var devices := DummyDevices;
    var aggregated := AggregateDevices(devices);
    var byProtection := GetProtectionBreakdown(devices);
    r := SummaryData(devices, aggregated, byProtection, |devices|);
  }
}
