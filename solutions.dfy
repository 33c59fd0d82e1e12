/**
 * The three in-memory aggregators of server/solutions.ts: revenue grouped by
 * bucket, active subscriptions by interval containment, and active
 * subscriptions by a running total of per-bucket deltas.
 *
 * The `from` and `to` arguments are instants (the parsed `new Date(from)` and
 * `new Date(to)`); bucket keys are day numbers and revenue stays in integer
 * cents.
 */
module Solutions {
  import opened DateTime
  import opened Types
  import opened Helpers
  import opened Sorting

  // ---------------------------------------------------------------------------
  // Revenue: a sparse group-by-sum over paid invoices
  // ---------------------------------------------------------------------------

  /** The bucket key of an instant at a grain, as a function value; the
      aggregation functions below hold for any such function. */
  function Bucketing(grain: Grain): int -> int {
    t => Truncate(t, grain)
  }

  datatype RevenueRow = RevenueRow(bucket: int, cents: int)

  /** An invoice counts when it is paid and its period starts in [from, to). */
  predicate Qualifies(inv: Invoice, from: int, to: int) {
    inv.status == Paid && from <= inv.periodStart < to
  }

  /** What one invoice adds to the bucket `key`. */
  function Contribution(inv: Invoice, from: int, to: int, bucket: int -> int, key: int): int {
    if Qualifies(inv, from, to) && bucket(inv.periodStart) == key then inv.amountCents else 0
  }

  /** Reference total of a bucket: the amounts of the qualifying invoices that
      truncate to it. */
  function RevenueIn(invoices: seq<Invoice>, from: int, to: int, bucket: int -> int, key: int): int
    decreases |invoices|
  {
    if invoices == [] then 0
    else
      var n := |invoices| - 1;
      RevenueIn(invoices[..n], from, to, bucket, key) + Contribution(invoices[n], from, to, bucket, key)
  }

  /** The buckets the qualifying invoices fall in. */
  function Buckets(invoices: seq<Invoice>, from: int, to: int, bucket: int -> int): set<int>
    decreases |invoices|
  {
    if invoices == [] then {}
    else
      var n := |invoices| - 1;
      Buckets(invoices[..n], from, to, bucket)
      + (if Qualifies(invoices[n], from, to) then {bucket(invoices[n].periodStart)} else {})
  }

  /** Reference output: one row per bucket in ascending key order, each with
      the bucket's total. */
  function RevenueRows(invoices: seq<Invoice>, from: int, to: int, bucket: int -> int): seq<RevenueRow> {
    var keys := SortedKeys(Buckets(invoices, from, to, bucket));
    seq(|keys|, j requires 0 <= j < |keys| => RevenueRow(keys[j], RevenueIn(invoices, from, to, bucket, keys[j])))
  }

  function BucketKeys(rows: seq<RevenueRow>): seq<int> {
    seq(|rows|, j requires 0 <= j < |rows| => rows[j].bucket)
  }

  /** The bucket map of the loop at solutions.ts:60-69: for every invoice that
      is paid and starts in the window, add its amount to its bucket. A key is
      present exactly when some such invoice falls in it, with that bucket's
      total. */
  method BucketRevenue(invoices: seq<Invoice>, from: int, to: int, grain: Grain) returns (bucketMap: map<int, int>)
    ensures forall key :: key in bucketMap <==> key in Buckets(invoices, from, to, Bucketing(grain))
    ensures forall key :: key in bucketMap ==> bucketMap[key] == RevenueIn(invoices, from, to, Bucketing(grain), key)
  {
    bucketMap := map[];
    for i := 0 to |invoices|
      invariant forall key :: key in bucketMap <==> key in Buckets(invoices[..i], from, to, Bucketing(grain))
      invariant forall key :: Lookup(bucketMap, key) == RevenueIn(invoices[..i], from, to, Bucketing(grain), key)
    {
      bucketMap := AddInvoice(bucketMap, invoices[i], from, to, grain);
      RevenueStep(invoices, i, from, to, Bucketing(grain));
    }
    assert invoices[..|invoices|] == invoices;
  }

  /** One iteration of the revenue loop: skip an invoice that is not paid or
      starts outside the window, otherwise add its amount to its bucket. */
  method AddInvoice(bucketMap: map<int, int>, invoice: Invoice, from: int, to: int, grain: Grain)
    returns (updated: map<int, int>)
    ensures forall key :: key in updated <==>
      key in bucketMap || (Qualifies(invoice, from, to) && key == Bucketing(grain)(invoice.periodStart))
    ensures forall key :: Lookup(updated, key) == Lookup(bucketMap, key) + Contribution(invoice, from, to, Bucketing(grain), key)
  {
    updated := bucketMap;
    if invoice.status != Paid {
      return;
    }
    var periodStart := new Date(invoice.periodStart);
    if periodStart.time < from || periodStart.time >= to {
      return;
    }
    var bucket := TruncateDate(periodStart, grain);
    assert bucket == Bucketing(grain)(invoice.periodStart);
    AddToBucket(updated, bucket, invoice.amountCents);
    updated := updated[bucket := Lookup(updated, bucket) + invoice.amountCents];
  }

  /** The reference total and buckets of one more invoice. */
  lemma RevenueStep(invoices: seq<Invoice>, i: int, from: int, to: int, bucket: int -> int)
    requires 0 <= i < |invoices|
    ensures forall key ::
      RevenueIn(invoices[..i + 1], from, to, bucket, key) == RevenueIn(invoices[..i], from, to, bucket, key) + Contribution(invoices[i], from, to, bucket, key)
    ensures Buckets(invoices[..i + 1], from, to, bucket)
      == Buckets(invoices[..i], from, to, bucket) + (if Qualifies(invoices[i], from, to) then {bucket(invoices[i].periodStart)} else {})
  {
    assert invoices[..i + 1][..i] == invoices[..i];
  }

  /** A key is a bucket exactly when some qualifying invoice truncates to
      it. */
  lemma {:induction false} BucketsMembers(invoices: seq<Invoice>, from: int, to: int, bucket: int -> int, key: int)
    ensures key in Buckets(invoices, from, to, bucket) <==>
      exists i :: 0 <= i < |invoices| && Qualifies(invoices[i], from, to) && bucket(invoices[i].periodStart) == key
    decreases |invoices|
  {
    if invoices != [] {
      var n := |invoices| - 1;
      var prefix := invoices[..n];
      BucketsMembers(prefix, from, to, bucket, key);
      if key in Buckets(prefix, from, to, bucket) {
        var i :| 0 <= i < n && Qualifies(prefix[i], from, to) && bucket(prefix[i].periodStart) == key;
        assert invoices[i] == prefix[i];
      }
      if exists i :: 0 <= i < |invoices| && Qualifies(invoices[i], from, to) && bucket(invoices[i].periodStart) == key {
        var i :| 0 <= i < |invoices| && Qualifies(invoices[i], from, to) && bucket(invoices[i].periodStart) == key;
        if i < n {
          assert prefix[i] == invoices[i];
        }
      }
    }
  }

  /** A key no qualifying invoice truncates to has a zero total. */
  lemma {:induction false} RevenueInOutside(invoices: seq<Invoice>, from: int, to: int, bucket: int -> int, key: int)
    requires key !in Buckets(invoices, from, to, bucket)
    ensures RevenueIn(invoices, from, to, bucket, key) == 0
    decreases |invoices|
  {
    if invoices != [] {
      var n := |invoices| - 1;
      RevenueInOutside(invoices[..n], from, to, bucket, key);
    }
  }

  /** getRevenueWithCode: the bucket map's entries in ascending key order. */
  method RevenueWithCode(invoices: seq<Invoice>, from: int, to: int, grain: Grain) returns (rows: seq<RevenueRow>)
    ensures rows == RevenueRows(invoices, from, to, Bucketing(grain))
  {
    var bucketMap := BucketRevenue(invoices, from, to, grain);
    rows := RowsOf(bucketMap);
    RowsOfBucketMap(bucketMap, invoices, from, to, Bucketing(grain));
  }

  /** The emission at solutions.ts:71-76: the map's entries sorted by key,
      one row each. */
  function RowsOf(bucketMap: map<int, int>): seq<RevenueRow> {
    var keys := SortedKeys(bucketMap.Keys);
    seq(|keys|, j requires 0 <= j < |keys| => RevenueRow(keys[j], bucketMap[keys[j]]))
  }

  /** The emitted rows are exactly the bucket map's entries, in ascending key
      order. */
  lemma RowsOfEntries(bucketMap: map<int, int>)
    ensures StrictlyIncreasing(BucketKeys(RowsOf(bucketMap)))
    ensures forall row :: row in RowsOf(bucketMap) <==> row.bucket in bucketMap && row.cents == bucketMap[row.bucket]
  {
    var keys := SortedKeys(bucketMap.Keys);
    var rows := RowsOf(bucketMap);
    assert BucketKeys(rows) == keys;
    forall row
      ensures row in rows <==> row.bucket in bucketMap && row.cents == bucketMap[row.bucket]
    {
      if row.bucket in bucketMap && row.cents == bucketMap[row.bucket] {
        var j :| 0 <= j < |keys| && keys[j] == row.bucket;
        assert rows[j] == row;
      }
    }
  }

  /** The bucket map's entries, sorted by key, are the reference rows. */
  lemma RowsOfBucketMap(bucketMap: map<int, int>, invoices: seq<Invoice>, from: int, to: int, bucket: int -> int)
    requires forall key :: key in bucketMap <==> key in Buckets(invoices, from, to, bucket)
    requires forall key :: key in bucketMap ==> bucketMap[key] == RevenueIn(invoices, from, to, bucket, key)
    ensures RowsOf(bucketMap) == RevenueRows(invoices, from, to, bucket)
  {
    var keys := SortedKeys(bucketMap.Keys);
    SameKeys(bucketMap.Keys, Buckets(invoices, from, to, bucket));
    var rows := RowsOf(bucketMap);
    var spec := RevenueRows(invoices, from, to, bucket);
    assert |rows| == |keys| == |spec|;
    forall j | 0 <= j < |rows|
      ensures rows[j] == spec[j]
    {
      assert keys[j] in bucketMap;
    }
  }

  /** The revenue rows are sparse and sorted: their keys strictly increase, a
      key appears exactly when some paid in-window invoice truncates to it,
      and each row carries that bucket's total. */
  lemma RevenueRowsSpec(invoices: seq<Invoice>, from: int, to: int, bucket: int -> int)
    ensures StrictlyIncreasing(BucketKeys(RevenueRows(invoices, from, to, bucket)))
    ensures forall key :: key in BucketKeys(RevenueRows(invoices, from, to, bucket)) <==>
      exists i :: 0 <= i < |invoices| && Qualifies(invoices[i], from, to) && bucket(invoices[i].periodStart) == key
    ensures forall row :: row in RevenueRows(invoices, from, to, bucket) ==>
      row.cents == RevenueIn(invoices, from, to, bucket, row.bucket)
  {
    var keys := SortedKeys(Buckets(invoices, from, to, bucket));
    RevenueRowsKeys(invoices, from, to, bucket);
    forall key
      ensures key in keys <==>
        exists i :: 0 <= i < |invoices| && Qualifies(invoices[i], from, to) && bucket(invoices[i].periodStart) == key
    {
      BucketsMembers(invoices, from, to, bucket, key);
    }
  }

  lemma RevenueRowsKeys(invoices: seq<Invoice>, from: int, to: int, bucket: int -> int)
    ensures BucketKeys(RevenueRows(invoices, from, to, bucket)) == SortedKeys(Buckets(invoices, from, to, bucket))
  {
    var keys := SortedKeys(Buckets(invoices, from, to, bucket));
    var bucketKeys := BucketKeys(RevenueRows(invoices, from, to, bucket));
    assert |bucketKeys| == |keys|;
    forall j | 0 <= j < |keys|
      ensures bucketKeys[j] == keys[j]
    {
    }
  }

  /** Invoices that are not paid or start outside the window add nothing to
      any bucket. */
  lemma {:induction false} RevenueInQualifying(invoices: seq<Invoice>, from: int, to: int, bucket: int -> int, key: int)
    ensures RevenueIn(invoices, from, to, bucket, key) == RevenueIn(QualifyingOf(invoices, from, to), from, to, bucket, key)
    decreases |invoices|
  {
    if invoices != [] {
      var n := |invoices| - 1;
      var x := invoices[n];
      RevenueInQualifying(invoices[..n], from, to, bucket, key);
      var q := QualifyingOf(invoices[..n], from, to);
      if Qualifies(x, from, to) {
        assert QualifyingOf(invoices, from, to) == q + [x];
        RevenueInSnoc(q, x, from, to, bucket, key);
      } else {
        assert QualifyingOf(invoices, from, to) == q;
      }
    }
  }

  lemma RevenueInSnoc(invoices: seq<Invoice>, x: Invoice, from: int, to: int, bucket: int -> int, key: int)
    ensures RevenueIn(invoices + [x], from, to, bucket, key) == RevenueIn(invoices, from, to, bucket, key) + Contribution(x, from, to, bucket, key)
  {
    assert (invoices + [x])[..|invoices|] == invoices;
  }

  /** The paid in-window invoices, in their original order. */
  function QualifyingOf(invoices: seq<Invoice>, from: int, to: int): (q: seq<Invoice>)
    ensures forall i :: 0 <= i < |q| ==> Qualifies(q[i], from, to)
    decreases |invoices|
  {
    if invoices == [] then []
    else
      var n := |invoices| - 1;
      QualifyingOf(invoices[..n], from, to) + (if Qualifies(invoices[n], from, to) then [invoices[n]] else [])
  }

  /** 2025-07-01 and 2025-08-01 as day numbers, and 2025-09-01. */
  const JULY_1_2025 := 20270
  const AUGUST_1_2025 := 20301
  const SEPTEMBER_1_2025 := 20332

  /** Two paid 500-cent invoices on 2025-07-01 and 2025-08-01 over
      [2025-07-01, 2025-09-01) by month give one 500-cent row for each month. */
  lemma RevenueExample()
    ensures var invoices := [Invoice(KeyTime(JULY_1_2025), 500, Paid), Invoice(KeyTime(AUGUST_1_2025), 500, Paid)];
      RevenueRows(invoices, KeyTime(JULY_1_2025), KeyTime(SEPTEMBER_1_2025), Bucketing(Month))
      == [RevenueRow(JULY_1_2025, 500), RevenueRow(AUGUST_1_2025, 500)]
  {
    ExampleMonthKeys();
    RevenueOfTwoKeys(JULY_1_2025, AUGUST_1_2025, 500, 500, KeyTime(JULY_1_2025), KeyTime(SEPTEMBER_1_2025), Bucketing(Month));
  }

  /** Two paid invoices at the midnights of two different bucket keys inside
      the window give one row per key, in key order. */
  lemma RevenueOfTwoKeys(k1: int, k2: int, c1: int, c2: int, from: int, to: int, bucket: int -> int)
    requires k1 < k2 && bucket(KeyTime(k1)) == k1 && bucket(KeyTime(k2)) == k2
    requires from <= KeyTime(k1) && KeyTime(k2) < to
    ensures RevenueRows([Invoice(KeyTime(k1), c1, Paid), Invoice(KeyTime(k2), c2, Paid)], from, to, bucket)
      == [RevenueRow(k1, c1), RevenueRow(k2, c2)]
  {
    var invoices := [Invoice(KeyTime(k1), c1, Paid), Invoice(KeyTime(k2), c2, Paid)];
    TwoKeysBuckets(invoices, k1, k2, from, to, bucket);
    TwoKeysTotals(invoices, k1, k2, from, to, bucket);
  }

  lemma TwoKeysBuckets(invoices: seq<Invoice>, k1: int, k2: int, from: int, to: int, bucket: int -> int)
    requires |invoices| == 2 && k1 < k2
    requires Qualifies(invoices[0], from, to) && Qualifies(invoices[1], from, to)
    requires bucket(invoices[0].periodStart) == k1 && bucket(invoices[1].periodStart) == k2
    ensures SortedKeys(Buckets(invoices, from, to, bucket)) == [k1, k2]
  {
    var buckets := Buckets(invoices, from, to, bucket);
    forall key
      ensures key in buckets <==> key in [k1, k2]
    {
      assert invoices[..1][..0] == [];
      assert key in Buckets(invoices[..1], from, to, bucket) <==> key == k1;
    }
    SortedUnique(SortedKeys(buckets), [k1, k2]);
  }

  lemma TwoKeysTotals(invoices: seq<Invoice>, k1: int, k2: int, from: int, to: int, bucket: int -> int)
    requires |invoices| == 2 && k1 != k2
    requires Qualifies(invoices[0], from, to) && Qualifies(invoices[1], from, to)
    requires bucket(invoices[0].periodStart) == k1 && bucket(invoices[1].periodStart) == k2
    ensures RevenueIn(invoices, from, to, bucket, k1) == invoices[0].amountCents
    ensures RevenueIn(invoices, from, to, bucket, k2) == invoices[1].amountCents
  {
    forall key
      ensures RevenueIn(invoices, from, to, bucket, key)
        == Contribution(invoices[0], from, to, bucket, key) + Contribution(invoices[1], from, to, bucket, key)
    {
      assert invoices[..1][..0] == [];
      assert invoices[..1][0] == invoices[0];
      assert RevenueIn(invoices[..1], from, to, bucket, key) == Contribution(invoices[0], from, to, bucket, key);
    }
  }

  /** 2025-07-01 and 2025-08-01 are month bucket keys. */
  lemma ExampleMonthKeys()
    ensures Bucketing(Month)(KeyTime(JULY_1_2025)) == JULY_1_2025
    ensures Bucketing(Month)(KeyTime(AUGUST_1_2025)) == AUGUST_1_2025
  {
    DaysFromCivilParts(2025, 7, 1, 5, 25);
    DaysFromCivilParts(2025, 8, 1, 5, 25);
    FirstOfMonthKey(2025, 7, JULY_1_2025);
    FirstOfMonthKey(2025, 8, AUGUST_1_2025);
  }

  /** Day 1 of a month truncates to itself by month. */
  lemma FirstOfMonthKey(y: int, m: int, key: int)
    requires 1 <= m <= 12 && key == DaysFromCivil(y, m, 1)
    ensures Truncate(KeyTime(key), Month) == key
  {
    assert DayNumber(KeyTime(key)) == key;
    CivilFromDaysInverseOf(y, m, 1);
  }

  // ---------------------------------------------------------------------------
  // Active subscriptions by interval containment
  // ---------------------------------------------------------------------------

  datatype CountRow = CountRow(bucket: int, activeCount: int)

  /** A subscription is active at an instant when it started at or before it
      and is not canceled at or before it. */
  predicate ActiveAt(sub: Subscription, instant: int) {
    sub.startedAt <= instant && (sub.canceledAt.None? || sub.canceledAt.value > instant)
  }

  /** The number of subscriptions active at an instant. */
  function CountActive(subs: seq<Subscription>, instant: int): (n: int)
    ensures 0 <= n <= |subs|
    decreases |subs|
  {
    if subs == [] then 0
    else
      var n := |subs| - 1;
      CountActive(subs[..n], instant) + (if ActiveAt(subs[n], instant) then 1 else 0)
  }

  /** The bucket axis shared by both subscription strategies: the walk from
      the bucket of `from` up to, and not including, the bucket of `to`. */
  function Axis(from: int, to: int, grain: Grain): seq<int> {
    Series(KeyTime(Truncate(from, grain)), KeyTime(Truncate(to, grain)), grain)
  }

  /** The axis both subscription strategies generate from their window. */
  method BucketAxis(from: int, to: int, grain: Grain) returns (series: seq<int>)
    ensures series == Axis(from, to, grain)
  {
    var fromDate := new Date(from);
    var fromKey := TruncateDate(fromDate, grain);
    var toDate := new Date(to);
    var toKey := TruncateDate(toDate, grain);
    series := GenerateSeries(KeyTime(fromKey), KeyTime(toKey), grain);
  }

  /** Reference output of the containment strategy: one row per axis key with
      the number of subscriptions active at that key's midnight. */
  function ActiveRows(subs: seq<Subscription>, from: int, to: int, grain: Grain): seq<CountRow> {
    var axis := Axis(from, to, grain);
    seq(|axis|, j requires 0 <= j < |axis| => CountRow(axis[j], CountActive(subs, KeyTime(axis[j]))))
  }

  /** getActiveSubscriptionsWithCode: generate the axis, then count for each
      bucket the subscriptions whose interval contains its midnight. */
  method ActiveSubscriptionsWithCode(subs: seq<Subscription>, from: int, to: int, grain: Grain) returns (rows: seq<CountRow>)
    ensures rows == ActiveRows(subs, from, to, grain)
  {
    var series := BucketAxis(from, to, grain);
    rows := seq(|series|, j requires 0 <= j < |series| => CountRow(series[j], CountActive(subs, KeyTime(series[j]))));
  }

  /** The containment rows are dense and ordered: their keys are the axis,
      which strictly increases, and each count lies between zero and the number
      of subscriptions. */
  lemma ActiveRowsSpec(subs: seq<Subscription>, from: int, to: int, grain: Grain)
    ensures CountKeys(ActiveRows(subs, from, to, grain)) == Axis(from, to, grain)
    ensures StrictlyIncreasing(CountKeys(ActiveRows(subs, from, to, grain)))
    ensures forall row :: row in ActiveRows(subs, from, to, grain) ==> 0 <= row.activeCount <= |subs|
  {
    var rows := ActiveRows(subs, from, to, grain);
    var axis := Axis(from, to, grain);
    assert CountKeys(rows) == axis;
    SeriesIncreasing(KeyTime(Truncate(from, grain)), KeyTime(Truncate(to, grain)), grain);
  }

  function CountKeys(rows: seq<CountRow>): seq<int> {
    seq(|rows|, j requires 0 <= j < |rows| => rows[j].bucket)
  }

  /** The axis lists exactly the bucket keys from the key of `from` up to, and
      not including, the key of `to`. */
  lemma AxisMembers(from: int, to: int, grain: Grain)
    ensures forall k :: k in Axis(from, to, grain) <==>
      IsBucketKey(k, grain) && Truncate(from, grain) <= k < Truncate(to, grain)
  {
    var first, last := Truncate(from, grain), Truncate(to, grain);
    var axis := Axis(from, to, grain);
    TruncateIsGreatestBucketKey(from, grain);
    SeriesBucketKeys(first, KeyTime(last), grain);
    SeriesBounds(KeyTime(first), KeyTime(last), grain);
    assert DateKey(KeyTime(first)) == first;
    forall k
      ensures k in axis <==> IsBucketKey(k, grain) && first <= k < last
    {
      if k in axis {
        var i :| 0 <= i < |axis| && axis[i] == k;
        assert SeriesBound(KeyTime(first), KeyTime(last), axis[i]);
      }
      if IsBucketKey(k, grain) && first <= k < last {
        assert KeyTime(k) < KeyTime(last);
        SeriesFindsBucketKey(first, KeyTime(last), grain, k);
      }
    }
  }

  /** When `to` is a bucket midnight, every revenue bucket is on the axis, so
      the sparse revenue output has at most one row per axis key. */
  lemma RevenueKeysOnAxis(invoices: seq<Invoice>, from: int, to: int, grain: Grain)
    requires KeyTime(Truncate(to, grain)) == to
    ensures forall key :: key in BucketKeys(RevenueRows(invoices, from, to, Bucketing(grain))) ==> key in Axis(from, to, grain)
    ensures |RevenueRows(invoices, from, to, Bucketing(grain))| <= |Axis(from, to, grain)|
  {
    var buckets := Buckets(invoices, from, to, Bucketing(grain));
    var keys := SortedKeys(buckets);
    var axis := Axis(from, to, grain);
    RevenueRowsKeys(invoices, from, to, Bucketing(grain));
    AxisMembers(from, to, grain);
    forall key | key in buckets
      ensures key in axis
    {
      BucketsMembers(invoices, from, to, Bucketing(grain), key);
      var i :| 0 <= i < |invoices| && Qualifies(invoices[i], from, to) && Bucketing(grain)(invoices[i].periodStart) == key;
      var t := invoices[i].periodStart;
      TruncateIsGreatestBucketKey(t, grain);
      TruncateMonotone(from, t, grain);
      KeyTimeBounds(t);
      assert DateKey(t) < Truncate(to, grain);
    }
    SeriesIncreasing(KeyTime(Truncate(from, grain)), KeyTime(Truncate(to, grain)), grain);
    IncreasingWithin(keys, axis);
    assert |BucketKeys(RevenueRows(invoices, from, to, Bucketing(grain)))| == |keys|;
  }

  /** With `to` in the middle of a day, an invoice after the last midnight of
      the window gets a row whose key is not on the axis: a window from
      2025-07-01 00:00 to 2025-07-02 12:00 with a paid invoice at 2025-07-02
      01:00 gives the row 2025-07-02 while the axis is [2025-07-01]. */
  lemma RevenueBeyondAxisExample()
    ensures var from, to := KeyTime(JULY_1_2025), KeyTime(JULY_1_2025 + 1) + 43200000;
      var invoices := [Invoice(KeyTime(JULY_1_2025 + 1) + 3600000, 500, Paid)];
      RevenueRows(invoices, from, to, Bucketing(Day)) == [RevenueRow(JULY_1_2025 + 1, 500)]
      && Axis(from, to, Day) == [JULY_1_2025]
  {
    var from, to := KeyTime(JULY_1_2025), KeyTime(JULY_1_2025 + 1) + 43200000;
    var inv := Invoice(KeyTime(JULY_1_2025 + 1) + 3600000, 500, Paid);
    assert Bucketing(Day)(inv.periodStart) == JULY_1_2025 + 1;
    RevenueOfOneKey(inv, JULY_1_2025 + 1, from, to, Bucketing(Day));
    assert Truncate(from, Day) == JULY_1_2025 && Truncate(to, Day) == JULY_1_2025 + 1;
    StepOfKeyTime(JULY_1_2025, Day);
    SeriesUnfold(from, KeyTime(JULY_1_2025 + 1), Day);
  }

  /** One qualifying invoice gives one row: its bucket with its amount. */
  lemma RevenueOfOneKey(inv: Invoice, key: int, from: int, to: int, bucket: int -> int)
    requires Qualifies(inv, from, to) && bucket(inv.periodStart) == key
    ensures RevenueRows([inv], from, to, bucket) == [RevenueRow(key, inv.amountCents)]
  {
    assert [inv][..0] == [];
    var buckets := Buckets([inv], from, to, bucket);
    assert buckets == Buckets([inv][..0], from, to, bucket) + {key};
    forall x
      ensures x in buckets <==> x in {key}
    {
      assert x !in Buckets([], from, to, bucket);
    }
    SameMembers(buckets, {key});
    var keys := SortedKeys(buckets);
    assert keys[0] in keys;
    assert keys == [key];
    assert RevenueIn([inv], from, to, bucket, key) == inv.amountCents;
  }

  /** Counting distributes over concatenation. */
  lemma {:induction false} CountActiveAppend(a: seq<Subscription>, b: seq<Subscription>, instant: int)
    ensures CountActive(a + b, instant) == CountActive(a, instant) + CountActive(b, instant)
    decreases |b|
  {
    if b == [] {
      assert a + b == a;
    } else {
      var n := |b| - 1;
      CountActiveAppend(a, b[..n], instant);
      assert (a + b)[..|a| + n] == a + b[..n];
    }
  }

  /** The count does not depend on the order of the subscriptions. */
  lemma {:induction false} CountActivePermutation(a: seq<Subscription>, b: seq<Subscription>, instant: int)
    requires multiset(a) == multiset(b)
    ensures CountActive(a, instant) == CountActive(b, instant)
    decreases |a|
  {
    if a == [] {
      assert |b| == |multiset(b)| == 0;
    } else {
      var n := |a| - 1;
      assert a[n] in multiset(b);
      var k :| 0 <= k < |b| && b[k] == a[n];
      var rest := b[..k] + b[k + 1..];
      RemoveMatching(a, b, k);
      CountActivePermutation(a[..n], rest, instant);
      CountActiveRemove(b, k, instant);
    }
  }

  /** Removing the same element from two permutations of each other leaves
      permutations of each other. */
  lemma RemoveMatching(a: seq<Subscription>, b: seq<Subscription>, k: int)
    requires multiset(a) == multiset(b) && a != [] && 0 <= k < |b| && b[k] == a[|a| - 1]
    ensures multiset(a[..|a| - 1]) == multiset(b[..k] + b[k + 1..])
  {
    var n := |a| - 1;
    var x := a[n];
    assert a == a[..n] + [x];
    assert b == b[..k] + [x] + b[k + 1..];
    var rest := b[..k] + b[k + 1..];
    assert multiset(a) == multiset(a[..n]) + multiset([x]);
    assert multiset(b) == multiset(b[..k]) + multiset([x]) + multiset(b[k + 1..]);
    assert multiset(rest) == multiset(b[..k]) + multiset(b[k + 1..]);
    forall y
      ensures multiset(a[..n])[y] == multiset(rest)[y]
    {
      assert multiset(a)[y] == multiset(b)[y];
    }
  }

  /** Removing one subscription lowers the count by its own contribution. */
  lemma CountActiveRemove(b: seq<Subscription>, k: int, instant: int)
    requires 0 <= k < |b|
    ensures CountActive(b, instant)
      == CountActive(b[..k] + b[k + 1..], instant) + (if ActiveAt(b[k], instant) then 1 else 0)
  {
    var x := b[k];
    CountActiveAppend(b[..k], [x] + b[k + 1..], instant);
    CountActiveAppend([x], b[k + 1..], instant);
    CountActiveAppend(b[..k], b[k + 1..], instant);
    assert [x][..0] == [];
    assert b[..k] + ([x] + b[k + 1..]) == b;
  }

  // ---------------------------------------------------------------------------
  // Active subscriptions by a running total of per-bucket deltas
  // ---------------------------------------------------------------------------

  /** The +1 a subscription records: in the bucket of its start, when it
      started before `to`, whatever `from` is. */
  function StartDelta(sub: Subscription, to: int, bucket: int -> int, key: int): int {
    if sub.startedAt < to && bucket(sub.startedAt) == key then 1 else 0
  }

  /** The -1 a subscription records: in the bucket of its cancellation, when
      it was canceled at or after `from`, whatever `to` is. */
  function CancelDelta(sub: Subscription, from: int, bucket: int -> int, key: int): int {
    if sub.canceledAt.Some? && sub.canceledAt.value >= from && bucket(sub.canceledAt.value) == key then 1 else 0
  }

  function SubDelta(sub: Subscription, from: int, to: int, bucket: int -> int, key: int): int {
    StartDelta(sub, to, bucket, key) - CancelDelta(sub, from, bucket, key)
  }

  /** Reference delta of a bucket: the starts recorded in it minus the
      cancellations recorded in it. */
  function NetDelta(subs: seq<Subscription>, from: int, to: int, bucket: int -> int, key: int): int
    decreases |subs|
  {
    if subs == [] then 0
    else
      var n := |subs| - 1;
      NetDelta(subs[..n], from, to, bucket, key) + SubDelta(subs[n], from, to, bucket, key)
  }

  /** The buckets a subscription records an event in. */
  function SubEvents(sub: Subscription, from: int, to: int, bucket: int -> int): set<int> {
    (if sub.startedAt < to then {bucket(sub.startedAt)} else {})
    + (if sub.canceledAt.Some? && sub.canceledAt.value >= from then {bucket(sub.canceledAt.value)} else {})
  }

  function EventKeys(subs: seq<Subscription>, from: int, to: int, bucket: int -> int): set<int>
    decreases |subs|
  {
    if subs == [] then {}
    else
      var n := |subs| - 1;
      EventKeys(subs[..n], from, to, bucket) + SubEvents(subs[n], from, to, bucket)
  }

  /** `deltaMap.get(key) ?? 0`. */
  function Lookup(m: map<int, int>, key: int): int {
    if key in m then m[key] else 0
  }

  /** The delta map of the loop at solutions.ts:234-246: +1 in the bucket of
      every start before `to`, -1 in the bucket of every cancellation at or
      after `from`. A key is present exactly when an event was recorded in it,
      and its value (or zero for an absent key) is the bucket's net delta. */
  method DeltaMap(subs: seq<Subscription>, from: int, to: int, grain: Grain) returns (deltaMap: map<int, int>)
    ensures forall key :: key in deltaMap <==> key in EventKeys(subs, from, to, Bucketing(grain))
    ensures forall key :: Lookup(deltaMap, key) == NetDelta(subs, from, to, Bucketing(grain), key)
  {
    deltaMap := map[];
    for i := 0 to |subs|
      invariant forall key :: key in deltaMap <==> key in EventKeys(subs[..i], from, to, Bucketing(grain))
      invariant forall key :: Lookup(deltaMap, key) == NetDelta(subs[..i], from, to, Bucketing(grain), key)
    {
      deltaMap := RecordSubscription(deltaMap, subs[i], from, to, grain);
      DeltaStep(subs, i, from, to, Bucketing(grain));
    }
    assert subs[..|subs|] == subs;
  }

  /** One iteration of the delta loop: the +1 of the start, then the -1 of
      the cancellation, each only when its condition holds. */
  method RecordSubscription(deltaMap: map<int, int>, sub: Subscription, from: int, to: int, grain: Grain)
    returns (updated: map<int, int>)
    ensures forall key :: key in updated <==> key in deltaMap || key in SubEvents(sub, from, to, Bucketing(grain))
    ensures forall key :: Lookup(updated, key) == Lookup(deltaMap, key) + SubDelta(sub, from, to, Bucketing(grain), key)
  {
    updated := deltaMap;
    if sub.startedAt < to {
      var started := new Date(sub.startedAt);
      var bucket := TruncateDate(started, grain);
      assert bucket == Bucketing(grain)(sub.startedAt);
      AddToBucket(updated, bucket, 1);
      updated := updated[bucket := Lookup(updated, bucket) + 1];
    }
    assert forall key :: Lookup(updated, key) == Lookup(deltaMap, key) + StartDelta(sub, to, Bucketing(grain), key);
    if sub.canceledAt.Some? && sub.canceledAt.value >= from {
      var canceled := new Date(sub.canceledAt.value);
      var bucket := TruncateDate(canceled, grain);
      assert bucket == Bucketing(grain)(sub.canceledAt.value);
      AddToBucket(updated, bucket, -1);
      updated := updated[bucket := Lookup(updated, bucket) - 1];
    }
  }

  /** `m.set(b, (m.get(b) ?? 0) + delta)` adds `b` to the keys and `delta` to
      its value, and leaves every other key alone. */
  lemma AddToBucket(m: map<int, int>, b: int, delta: int)
    ensures forall key :: key in m[b := Lookup(m, b) + delta] <==> key in m || key == b
    ensures forall key :: Lookup(m[b := Lookup(m, b) + delta], key) == Lookup(m, key) + (if key == b then delta else 0)
  {
  }

  /** The reference delta and keys of one more subscription. */
  lemma DeltaStep(subs: seq<Subscription>, i: int, from: int, to: int, bucket: int -> int)
    requires 0 <= i < |subs|
    ensures forall key ::
      NetDelta(subs[..i + 1], from, to, bucket, key) == NetDelta(subs[..i], from, to, bucket, key) + SubDelta(subs[i], from, to, bucket, key)
    ensures EventKeys(subs[..i + 1], from, to, bucket) == EventKeys(subs[..i], from, to, bucket) + SubEvents(subs[i], from, to, bucket)
  {
    assert subs[..i + 1][..i] == subs[..i];
  }

  /** A key is recorded exactly when some subscription started in it before
      `to` or was canceled in it at or after `from`. */
  lemma {:induction false} EventKeysMembers(subs: seq<Subscription>, from: int, to: int, bucket: int -> int, key: int)
    ensures key in EventKeys(subs, from, to, bucket) <==>
      exists i :: 0 <= i < |subs| && key in SubEvents(subs[i], from, to, bucket)
    decreases |subs|
  {
    if subs != [] {
      var n := |subs| - 1;
      var prefix := subs[..n];
      EventKeysMembers(prefix, from, to, bucket, key);
      if key in EventKeys(prefix, from, to, bucket) {
        var i :| 0 <= i < n && key in SubEvents(prefix[i], from, to, bucket);
        assert subs[i] == prefix[i];
      }
      if exists i :: 0 <= i < |subs| && key in SubEvents(subs[i], from, to, bucket) {
        var i :| 0 <= i < |subs| && key in SubEvents(subs[i], from, to, bucket);
        if i < n {
          assert prefix[i] == subs[i];
        }
      }
    }
  }

  /** The sum of the deltas recorded at the given keys. */
  function PrefixSum(m: map<int, int>, keys: seq<int>): int
    decreases |keys|
  {
    if keys == [] then 0
    else
      var n := |keys| - 1;
      PrefixSum(m, keys[..n]) + Lookup(m, keys[n])
  }

  /** Reference running total: the net deltas of the given keys. */
  function NetThrough(subs: seq<Subscription>, from: int, to: int, bucket: int -> int, keys: seq<int>): int
    decreases |keys|
  {
    if keys == [] then 0
    else
      var n := |keys| - 1;
      NetThrough(subs, from, to, bucket, keys[..n]) + NetDelta(subs, from, to, bucket, keys[n])
  }

  /** Reference output of the delta strategy: one row per axis key with the
      running total of the net deltas up to and including that key. */
  function DeltaRows(subs: seq<Subscription>, from: int, to: int, grain: Grain): seq<CountRow> {
    var axis := Axis(from, to, grain);
    seq(|axis|, j requires 0 <= j < |axis| => CountRow(axis[j], NetThrough(subs, from, to, Bucketing(grain), axis[..j + 1])))
  }

  /** Only the entries at the summed keys matter: two maps that agree there,
      absent keys counting zero, give the same sum. */
  lemma {:induction false} PrefixSumLocal(m1: map<int, int>, m2: map<int, int>, keys: seq<int>)
    requires forall j :: 0 <= j < |keys| ==> Lookup(m1, keys[j]) == Lookup(m2, keys[j])
    ensures PrefixSum(m1, keys) == PrefixSum(m2, keys)
    decreases |keys|
  {
    if keys != [] {
      var n := |keys| - 1;
      PrefixSumLocal(m1, m2, keys[..n]);
    }
  }

  /** A map holding the net delta of every key sums to the reference running
      total. */
  lemma {:induction false} PrefixSumNet(m: map<int, int>, subs: seq<Subscription>, from: int, to: int, bucket: int -> int, keys: seq<int>)
    requires forall key :: Lookup(m, key) == NetDelta(subs, from, to, bucket, key)
    ensures PrefixSum(m, keys) == NetThrough(subs, from, to, bucket, keys)
    decreases |keys|
  {
    if keys != [] {
      var n := |keys| - 1;
      PrefixSumNet(m, subs, from, to, bucket, keys[..n]);
    }
  }

  /** The emission at solutions.ts:254-264: walk the axis, add each key's
      delta (zero when absent) to a running total, and emit the total. */
  method RunningTotals(deltaMap: map<int, int>, series: seq<int>) returns (rows: seq<CountRow>)
    ensures |rows| == |series|
    ensures forall i :: 0 <= i < |rows| ==> rows[i] == CountRow(series[i], PrefixSum(deltaMap, series[..i + 1]))
  {
    var runningTotal := 0;
    rows := [];
    for j := 0 to |series|
      invariant |rows| == j
      invariant runningTotal == PrefixSum(deltaMap, series[..j])
      invariant forall i :: 0 <= i < j ==> rows[i] == CountRow(series[i], PrefixSum(deltaMap, series[..i + 1]))
    {
      var bucket := series[j];
      var delta := Lookup(deltaMap, bucket);
      runningTotal := runningTotal + delta;
      assert series[..j + 1][..j] == series[..j];
      rows := rows + [CountRow(bucket, runningTotal)];
    }
  }

  /** getSubscriptionsWithCode: build the delta map, generate the axis, and
      emit for each bucket the running total of the deltas read so far. */
  method SubscriptionsWithCode(subs: seq<Subscription>, from: int, to: int, grain: Grain) returns (rows: seq<CountRow>)
    ensures rows == DeltaRows(subs, from, to, grain)
  {
    var deltaMap := DeltaMap(subs, from, to, grain);
    var series := BucketAxis(from, to, grain);
    rows := RunningTotals(deltaMap, series);
    ghost var spec := DeltaRows(subs, from, to, grain);
    assert |rows| == |spec|;
    forall i | 0 <= i < |rows|
      ensures rows[i] == spec[i]
    {
      PrefixSumNet(deltaMap, subs, from, to, Bucketing(grain), series[..i + 1]);
    }
  }

  // ---------------------------------------------------------------------------
  // Where the two subscription strategies agree, and where they do not
  // ---------------------------------------------------------------------------

  /** The running total of one subscription's own deltas over some keys. */
  function SubThrough(sub: Subscription, from: int, to: int, bucket: int -> int, keys: seq<int>): int
    decreases |keys|
  {
    if keys == [] then 0
    else
      var n := |keys| - 1;
      SubThrough(sub, from, to, bucket, keys[..n]) + SubDelta(sub, from, to, bucket, keys[n])
  }

  /** Over distinct keys, a subscription adds one when its start is recorded
      at one of them and takes one when its cancellation is. */
  lemma {:induction false} SubThroughValue(sub: Subscription, from: int, to: int, bucket: int -> int, keys: seq<int>)
    requires StrictlyIncreasing(keys)
    ensures SubThrough(sub, from, to, bucket, keys)
      == (if sub.startedAt < to && bucket(sub.startedAt) in keys then 1 else 0)
       - (if sub.canceledAt.Some? && sub.canceledAt.value >= from && bucket(sub.canceledAt.value) in keys then 1 else 0)
    decreases |keys|
  {
    if keys != [] {
      var n := |keys| - 1;
      LastIsNew(keys);
      SubThroughValue(sub, from, to, bucket, keys[..n]);
    }
  }

  /** No subscriptions, no deltas. */
  lemma {:induction false} NetThroughOfNone(from: int, to: int, bucket: int -> int, keys: seq<int>)
    ensures NetThrough([], from, to, bucket, keys) == 0
    decreases |keys|
  {
    if keys != [] {
      NetThroughOfNone(from, to, bucket, keys[..|keys| - 1]);
    }
  }

  /** One more subscription adds its own running total. */
  lemma {:induction false} NetThroughSnoc(subs: seq<Subscription>, x: Subscription, from: int, to: int, bucket: int -> int, keys: seq<int>)
    ensures NetThrough(subs + [x], from, to, bucket, keys)
      == NetThrough(subs, from, to, bucket, keys) + SubThrough(x, from, to, bucket, keys)
    decreases |keys|
  {
    if keys != [] {
      var n := |keys| - 1;
      NetThroughSnoc(subs, x, from, to, bucket, keys[..n]);
      assert (subs + [x])[..|subs|] == subs;
    }
  }

  /** An instant that is the midnight of its own bucket, and that bucket is on
      the axis. */
  predicate OnAxis(t: int, bucket: int -> int, axis: seq<int>) {
    bucket(t) in axis && t == KeyTime(bucket(t))
  }

  /** A subscription whose events fall on axis midnights inside the window and
      which is not canceled before it started. */
  predicate AlignedSub(sub: Subscription, from: int, to: int, bucket: int -> int, axis: seq<int>) {
    OnAxis(sub.startedAt, bucket, axis) && sub.startedAt < to
    && (sub.canceledAt.Some? ==>
          OnAxis(sub.canceledAt.value, bucket, axis) && from <= sub.canceledAt.value && sub.startedAt <= sub.canceledAt.value)
  }

  /** For an aligned subscription, its running total through an axis key is one
      exactly when it is active at that key's midnight. */
  lemma SubParity(sub: Subscription, from: int, to: int, bucket: int -> int, axis: seq<int>, j: int)
    requires StrictlyIncreasing(axis) && 0 <= j < |axis| && AlignedSub(sub, from, to, bucket, axis)
    ensures SubThrough(sub, from, to, bucket, axis[..j + 1]) == if ActiveAt(sub, KeyTime(axis[j])) then 1 else 0
  {
    var keys := axis[..j + 1];
    assert StrictlyIncreasing(keys);
    SubThroughValue(sub, from, to, bucket, keys);
    PrefixMembers(axis, j, bucket(sub.startedAt));
    if sub.canceledAt.Some? {
      PrefixMembers(axis, j, bucket(sub.canceledAt.value));
    }
  }

  /** On aligned subscriptions the running total of deltas through an axis key
      is the number of subscriptions active at that key's midnight. */
  lemma {:induction false} DeltaMatchesContainment(subs: seq<Subscription>, from: int, to: int, bucket: int -> int, axis: seq<int>, j: int)
    requires StrictlyIncreasing(axis) && 0 <= j < |axis|
    requires forall i :: 0 <= i < |subs| ==> AlignedSub(subs[i], from, to, bucket, axis)
    ensures NetThrough(subs, from, to, bucket, axis[..j + 1]) == CountActive(subs, KeyTime(axis[j]))
    decreases |subs|
  {
    if subs == [] {
      NetThroughOfNone(from, to, bucket, axis[..j + 1]);
    } else {
      var n := |subs| - 1;
      var prefix := subs[..n];
      DeltaMatchesContainment(prefix, from, to, bucket, axis, j);
      assert prefix + [subs[n]] == subs;
      NetThroughSnoc(prefix, subs[n], from, to, bucket, axis[..j + 1]);
      SubParity(subs[n], from, to, bucket, axis, j);
    }
  }

  /** An instant that is the midnight of its own bucket at this grain, with
      that bucket on the axis of the window. */
  predicate BucketAligned(t: int, from: int, to: int, grain: Grain) {
    KeyTime(Truncate(t, grain)) == t && Truncate(t, grain) in Axis(from, to, grain)
  }

  /** When `from` is a bucket midnight, every axis key's midnight lies in the
      window. */
  lemma AxisWithinWindow(from: int, to: int, grain: Grain)
    requires KeyTime(Truncate(from, grain)) == from
    ensures forall k :: k in Axis(from, to, grain) ==> from <= KeyTime(k) < to
  {
    var lo, hi := KeyTime(Truncate(from, grain)), KeyTime(Truncate(to, grain));
    var axis := Series(lo, hi, grain);
    SeriesBounds(lo, hi, grain);
    assert forall i :: 0 <= i < |axis| ==> DateKey(lo) <= axis[i] && KeyTime(axis[i]) < hi;
    assert DateKey(lo) == Truncate(from, grain);
    TruncateIsGreatestBucketKey(to, grain);
    KeyTimeBounds(to);
    assert hi <= to;
    forall k | k in axis
      ensures from <= KeyTime(k) < to
    {
      var i :| 0 <= i < |axis| && axis[i] == k;
      assert DateKey(lo) <= axis[i] && KeyTime(axis[i]) < hi;
      assert KeyTime(Truncate(from, grain)) <= KeyTime(k);
    }
  }

  /** Containment/delta parity: when `from` is a bucket midnight, every start
      and cancellation is a bucket midnight on the axis, and no subscription is
      canceled before it started, both strategies return the same rows. */
  lemma StrategiesAgree(subs: seq<Subscription>, from: int, to: int, grain: Grain)
    requires KeyTime(Truncate(from, grain)) == from
    requires forall i :: 0 <= i < |subs| ==> BucketAligned(subs[i].startedAt, from, to, grain)
    requires forall i :: 0 <= i < |subs| && subs[i].canceledAt.Some? ==>
      BucketAligned(subs[i].canceledAt.value, from, to, grain) && subs[i].startedAt <= subs[i].canceledAt.value
    ensures ActiveRows(subs, from, to, grain) == DeltaRows(subs, from, to, grain)
  {
    var axis := Axis(from, to, grain);
    SeriesIncreasing(KeyTime(Truncate(from, grain)), KeyTime(Truncate(to, grain)), grain);
    AxisWithinWindow(from, to, grain);
    forall i | 0 <= i < |subs|
      ensures AlignedSub(subs[i], from, to, Bucketing(grain), axis)
    {
    }
    var active, delta := ActiveRows(subs, from, to, grain), DeltaRows(subs, from, to, grain);
    assert |active| == |delta|;
    forall j | 0 <= j < |axis|
      ensures active[j] == delta[j]
    {
      DeltaMatchesContainment(subs, from, to, Bucketing(grain), axis, j);
    }
  }

  /** The first axis key of a window between two day midnights, by day. */
  lemma FirstDayOfAxis(key: int, last: int)
    requires key < last
    ensures |Axis(KeyTime(key), KeyTime(last), Day)| > 0 && Axis(KeyTime(key), KeyTime(last), Day)[0] == key
  {
    KeyTimeBounds(KeyTime(key));
    KeyTimeBounds(KeyTime(last));
    assert DateKey(KeyTime(key)) == key;
    assert DateKey(KeyTime(last)) == last;
    SeriesStart(KeyTime(key), KeyTime(last), Day);
  }

  /** A subscription started before the window and canceled at its first
      midnight: containment counts nothing there, while the delta strategy
      never reads the +1 recorded before the axis and reports -1. */
  lemma NegativeDeltaExample()
    ensures var subs := [Subscription(0, Some(KeyTime(JULY_1_2025)))];
      var from, to := KeyTime(JULY_1_2025), KeyTime(AUGUST_1_2025);
      var active, delta := ActiveRows(subs, from, to, Day), DeltaRows(subs, from, to, Day);
      |active| > 0 && |delta| > 0
      && active[0] == CountRow(JULY_1_2025, 0) && delta[0] == CountRow(JULY_1_2025, -1)
  {
    var sub := Subscription(0, Some(KeyTime(JULY_1_2025)));
    var from, to := KeyTime(JULY_1_2025), KeyTime(AUGUST_1_2025);
    FirstDayOfAxis(JULY_1_2025, AUGUST_1_2025);
    var axis := Axis(from, to, Day);
    assert axis[..1] == [JULY_1_2025];
    KeyTimeBounds(from);
    assert Bucketing(Day)(from) == JULY_1_2025;
    assert Bucketing(Day)(0) == 0;
    assert SubDelta(sub, from, to, Bucketing(Day), JULY_1_2025) == -1;
    assert [sub][..0] == [];
    assert NetDelta([sub], from, to, Bucketing(Day), JULY_1_2025) == -1;
    assert [JULY_1_2025][..0] == [];
    assert NetThrough([sub], from, to, Bucketing(Day), [JULY_1_2025]) == -1;
    assert !ActiveAt(sub, from);
    assert CountActive([sub], from) == 0;
  }

  /** A subscription started one hour into the window's first day: the delta
      strategy credits that day's bucket, containment does not count it at the
      bucket's midnight. */
  lemma MidBucketExample()
    ensures var subs := [Subscription(KeyTime(JULY_1_2025) + 3600000, None)];
      var from, to := KeyTime(JULY_1_2025), KeyTime(AUGUST_1_2025);
      var active, delta := ActiveRows(subs, from, to, Day), DeltaRows(subs, from, to, Day);
      |active| > 0 && |delta| > 0
      && active[0] == CountRow(JULY_1_2025, 0) && delta[0] == CountRow(JULY_1_2025, 1)
  {
    var sub := Subscription(KeyTime(JULY_1_2025) + 3600000, None);
    var from, to := KeyTime(JULY_1_2025), KeyTime(AUGUST_1_2025);
    FirstDayOfAxis(JULY_1_2025, AUGUST_1_2025);
    var axis := Axis(from, to, Day);
    assert axis[..1] == [JULY_1_2025];
    KeyTimeBounds(from);
    assert Bucketing(Day)(from + 3600000) == JULY_1_2025;
    assert SubDelta(sub, from, to, Bucketing(Day), JULY_1_2025) == 1;
    assert [sub][..0] == [];
    assert NetDelta([sub], from, to, Bucketing(Day), JULY_1_2025) == 1;
    assert [JULY_1_2025][..0] == [];
    assert NetThrough([sub], from, to, Bucketing(Day), [JULY_1_2025]) == 1;
    assert !ActiveAt(sub, from);
    assert CountActive([sub], from) == 0;
  }

  /** Carry-over omission: a subscription that started in a bucket before the
      axis and is never canceled records its +1 at a key the running total
      never reads, so it changes no delta row... */
  lemma CarryOverOmitted(subs: seq<Subscription>, sub: Subscription, from: int, to: int, grain: Grain)
    requires Truncate(sub.startedAt, grain) < Truncate(from, grain) && sub.canceledAt.None?
    ensures DeltaRows(subs + [sub], from, to, grain) == DeltaRows(subs, from, to, grain)
  {
    var axis := Axis(from, to, grain);
    var lo, hi := KeyTime(Truncate(from, grain)), KeyTime(Truncate(to, grain));
    SeriesIncreasing(lo, hi, grain);
    SeriesBounds(lo, hi, grain);
    assert DateKey(lo) == Truncate(from, grain);
    var before, after := DeltaRows(subs, from, to, grain), DeltaRows(subs + [sub], from, to, grain);
    forall j | 0 <= j < |axis|
      ensures after[j] == before[j]
    {
      var keys := axis[..j + 1];
      assert StrictlyIncreasing(keys);
      forall i | 0 <= i < |keys|
        ensures keys[i] != Bucketing(grain)(sub.startedAt)
      {
        assert SeriesBound(lo, hi, axis[i]);
      }
      OmittedThrough(subs, sub, from, to, Bucketing(grain), keys);
    }
  }

  /** A never-canceled subscription whose start bucket is not among the keys
      adds nothing to their running total. */
  lemma OmittedThrough(subs: seq<Subscription>, sub: Subscription, from: int, to: int, bucket: int -> int, keys: seq<int>)
    requires StrictlyIncreasing(keys) && sub.canceledAt.None? && bucket(sub.startedAt) !in keys
    ensures NetThrough(subs + [sub], from, to, bucket, keys) == NetThrough(subs, from, to, bucket, keys)
  {
    NetThroughSnoc(subs, sub, from, to, bucket, keys);
    SubThroughValue(sub, from, to, bucket, keys);
  }

  /** ... while containment counts it at every axis key. */
  lemma CarryOverCounted(subs: seq<Subscription>, sub: Subscription, from: int, to: int, grain: Grain)
    requires Truncate(sub.startedAt, grain) < Truncate(from, grain) && sub.canceledAt.None?
    ensures |ActiveRows(subs + [sub], from, to, grain)| == |ActiveRows(subs, from, to, grain)|
    ensures forall j :: 0 <= j < |ActiveRows(subs + [sub], from, to, grain)| ==>
      ActiveRows(subs + [sub], from, to, grain)[j].activeCount == ActiveRows(subs, from, to, grain)[j].activeCount + 1
  {
    var axis := Axis(from, to, grain);
    var lo, hi := KeyTime(Truncate(from, grain)), KeyTime(Truncate(to, grain));
    SeriesBounds(lo, hi, grain);
    assert DateKey(lo) == Truncate(from, grain);
    TruncateIsGreatestBucketKey(from, grain);
    TruncateIsGreatestBucketKey(sub.startedAt, grain);
    KeyTimeBounds(sub.startedAt);
    assert DateKey(sub.startedAt) < Truncate(from, grain);
    assert sub.startedAt < lo;
    assert (subs + [sub])[..|subs|] == subs;
    forall j | 0 <= j < |axis|
      ensures CountActive(subs + [sub], KeyTime(axis[j])) == CountActive(subs, KeyTime(axis[j])) + 1
    {
      assert SeriesBound(lo, hi, axis[j]);
      assert lo <= KeyTime(axis[j]);
      assert ActiveAt(sub, KeyTime(axis[j]));
    }
  }
}
