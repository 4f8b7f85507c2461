/** The dashboard (components/Dashboard.tsx): totals over the transactions and
    the products, the low-stock warning, and the per-day chart. Dates are turned
    into day labels by the browser's locale formatting, which is the parameter
    `dayKey` here. */
module DashboardScreen {
  import opened Seqs
  import opened Types

  function TransactionTotal(t: Transaction): int { t.total }

  function TransactionProfit(t: Transaction): int { t.profit }

  /** What the stock of one product cost. */
  function StockValue(p: Product): int { p.costPrice * p.stock }

  /** `totalRevenue` (Dashboard.tsx:54) */
  function TotalRevenue(ts: seq<Transaction>): int
  {
    SumOf(ts, TransactionTotal)
  }

  /** `totalProfit` (Dashboard.tsx:55) */
  function TotalProfit(ts: seq<Transaction>): int
  {
    SumOf(ts, TransactionProfit)
  }

  /** `totalStockValue` (Dashboard.tsx:56) */
  function TotalStockValue(ps: seq<Product>): int
  {
    SumOf(ps, StockValue)
  }

  /** A new sale adds its total and its profit to the two totals. */
  lemma TotalsAfterSale(ts: seq<Transaction>, t: Transaction)
    ensures TotalRevenue(ts + [t]) == TotalRevenue(ts) + t.total
    ensures TotalProfit(ts + [t]) == TotalProfit(ts) + t.profit
  {
    SumOfAppend(ts, [t], TransactionTotal);
    SumOfAppend(ts, [t], TransactionProfit);
    assert [t][1..] == [];
  }

  /** With no negative stock and no negative cost price the stock value is not negative. */
  lemma StockValueNonNegative(ps: seq<Product>)
    requires forall i :: 0 <= i < |ps| ==> ps[i].stock >= 0 && ps[i].costPrice >= 0
    ensures TotalStockValue(ps) >= 0
  {
    SumOfNonNegative(ps, StockValue);
  }

  predicate IsLowStock(p: Product)
  {
    p.stock < 10
  }

  /** `lowStockProducts` (Dashboard.tsx:57): the products with fewer than ten
      units, in catalogue order. */
  function LowStockProducts(ps: seq<Product>): (r: seq<Product>)
    ensures forall i :: 0 <= i < |r| ==> r[i] in ps && r[i].stock < 10
    ensures forall i :: 0 <= i < |ps| && ps[i].stock < 10 ==> ps[i] in r
    ensures forall q :: multiset(r)[q] == if q.stock < 10 then multiset(ps)[q] else 0
    ensures IsSubsequence(r, ps)
  {
    FilterCounts(ps, IsLowStock);
    Filter(ps, IsLowStock)
  }

  // ---------------------------------------------------------------------------
  // The chart

  /** One entry of `dataByDay`: a day label with its sales and its profit. */
  datatype DayBucket = DayBucket(name: string, sales: int, profit: int)

  /** The position of the entry for `key`, or -1. */
  function BucketIndex(buckets: seq<DayBucket>, key: string): (k: int)
    ensures -1 <= k < |buckets|
    ensures k == -1 <==> forall i :: 0 <= i < |buckets| ==> buckets[i].name != key
    ensures 0 <= k ==> buckets[k].name == key
  {
    FindIndex(buckets, (b: DayBucket) => b.name == key)
  }

  /** One step of the `forEach` (Dashboard.tsx:62-69): an entry for an unseen day is
      created at the end with zero sales, then the sale is added to its day. The
      object's entries are kept in insertion order, which is the order
      `Object.entries` yields for keys that are not array indices. */
  function Accumulate(buckets: seq<DayBucket>, key: string, t: Transaction): seq<DayBucket>
  {
    var k := BucketIndex(buckets, key);
    var b := if k == -1 then buckets + [DayBucket(key, 0, 0)] else buckets;
    var j := if k == -1 then |buckets| else k;
    b[j := b[j].(sales := b[j].sales + t.total, profit := b[j].profit + t.profit)]
  }

  /** `dataByDay` after the first |ts| transactions, as a list of entries. */
  function Bucketed(ts: seq<Transaction>, dayKey: string -> string): seq<DayBucket>
  {
    if ts == [] then []
    else
      var t := ts[|ts| - 1];
      Accumulate(Bucketed(ts[..|ts| - 1], dayKey), dayKey(t.date), t)
  }

  /** `.slice(-10)`: the last ten entries, or all of them when there are fewer. */
  function LastTen<T>(s: seq<T>): (r: seq<T>)
    ensures |r| == if |s| <= 10 then |s| else 10
    ensures r == s[|s| - |r|..]
  {
    if |s| <= 10 then s else s[|s| - 10..]
  }

  /** The `forEach` callback (Dashboard.tsx:62-69) acting on the entries. */
  method AddToDay(dataByDay: seq<DayBucket>, date: string, t: Transaction) returns (r: seq<DayBucket>)
    ensures r == Accumulate(dataByDay, date, t)
  {
    r := dataByDay;
    var k := BucketIndex(r, date);
    ghost var found := k;
    if k == -1 {
      r := r + [DayBucket(date, 0, 0)];
      k := |r| - 1;
    }
    assert k == (if found == -1 then |dataByDay| else found);
    r := r[k := r[k].(sales := r[k].sales + t.total, profit := r[k].profit + t.profit)];
  }

  /** `chartData` (Dashboard.tsx:59-74): the loop over the transactions kept as a
      loop, proved to build `Bucketed`. */
  method ChartData(ts: seq<Transaction>, dayKey: string -> string) returns (chart: seq<DayBucket>)
    ensures chart == LastTen(Bucketed(ts, dayKey))
  {
    var dataByDay: seq<DayBucket> := [];
    var i := 0;
    while i < |ts|
      invariant 0 <= i <= |ts|
      invariant dataByDay == Bucketed(ts[..i], dayKey)
    {
      var t := ts[i];
      dataByDay := AddToDay(dataByDay, dayKey(t.date), t);
      assert ts[..i + 1][..i] == ts[..i];
      i := i + 1;
    }
    assert ts[..i] == ts;
    chart := LastTen(dataByDay);
  }

  /** The sales of day `name`: the total of each transaction on that day, else 0. */
  function SalesOn(dayKey: string -> string, name: string): Transaction -> int
  {
    (t: Transaction) => if dayKey(t.date) == name then t.total else 0
  }

  function ProfitOn(dayKey: string -> string, name: string): Transaction -> int
  {
    (t: Transaction) => if dayKey(t.date) == name then t.profit else 0
  }

  /** No day label appears twice. */
  ghost predicate UniqueNames(buckets: seq<DayBucket>)
  {
    forall i, j :: 0 <= i < j < |buckets| ==> buckets[i].name != buckets[j].name
  }

  /** One step keeps every label in place and appends the new day's label, if any. */
  lemma AccumulateNames(buckets: seq<DayBucket>, key: string, t: Transaction)
    ensures var r := Accumulate(buckets, key, t);
            && |r| == (if BucketIndex(buckets, key) == -1 then |buckets| + 1 else |buckets|)
            && (forall i :: 0 <= i < |buckets| ==> r[i].name == buckets[i].name)
            && (BucketIndex(buckets, key) == -1 ==> r[|buckets|].name == key)
  {
  }

  /** One step adds the sale to the entry of its day, creating it with the sale's
      amounts if the day is new, and leaves every other entry alone. */
  lemma AccumulateAmounts(buckets: seq<DayBucket>, key: string, t: Transaction)
    ensures var r, k := Accumulate(buckets, key, t), BucketIndex(buckets, key);
            && (forall i :: 0 <= i < |buckets| && i != k ==> r[i] == buckets[i])
            && (k != -1 ==> r[k] == buckets[k].(sales := buckets[k].sales + t.total,
                                                profit := buckets[k].profit + t.profit))
            && (k == -1 ==> r[|buckets|] == DayBucket(key, t.total, t.profit))
  {
  }

  /** No day gets two entries. */
  lemma {:induction false} BucketNamesUnique(ts: seq<Transaction>, dayKey: string -> string)
    ensures UniqueNames(Bucketed(ts, dayKey))
  {
    if ts != [] {
      var prefix, t := ts[..|ts| - 1], ts[|ts| - 1];
      BucketNamesUnique(prefix, dayKey);
      AccumulateNames(Bucketed(prefix, dayKey), dayKey(t.date), t);
    }
  }

  /** Every transaction's day has an entry. */
  lemma {:induction false} BucketsCoverDays(ts: seq<Transaction>, dayKey: string -> string)
    ensures forall j :: 0 <= j < |ts| ==> BucketIndex(Bucketed(ts, dayKey), dayKey(ts[j].date)) != -1
  {
    if ts != [] {
      var prefix, t := ts[..|ts| - 1], ts[|ts| - 1];
      var before := Bucketed(prefix, dayKey);
      var b := Bucketed(ts, dayKey);
      BucketsCoverDays(prefix, dayKey);
      AccumulateNames(before, dayKey(t.date), t);
      forall j | 0 <= j < |ts|
        ensures BucketIndex(b, dayKey(ts[j].date)) != -1
      {
        if j == |ts| - 1 {
          var k := BucketIndex(before, dayKey(t.date));
          assert b[if k == -1 then |before| else k].name == dayKey(t.date);
        } else {
          assert ts[j] == prefix[j];
          assert b[BucketIndex(before, dayKey(prefix[j].date))].name == dayKey(ts[j].date);
        }
      }
    }
  }

  /** Some transaction falls on day `name`. */
  ghost predicate IsDayOf(ts: seq<Transaction>, dayKey: string -> string, name: string)
  {
    exists j :: 0 <= j < |ts| && dayKey(ts[j].date) == name
  }

  /** Every entry is the day of some transaction. */
  lemma {:induction false} BucketsAreDays(ts: seq<Transaction>, dayKey: string -> string)
    ensures forall i :: 0 <= i < |Bucketed(ts, dayKey)| ==> IsDayOf(ts, dayKey, Bucketed(ts, dayKey)[i].name)
  {
    if ts != [] {
      var prefix, t := ts[..|ts| - 1], ts[|ts| - 1];
      var before := Bucketed(prefix, dayKey);
      var b := Bucketed(ts, dayKey);
      BucketsAreDays(prefix, dayKey);
      assert forall i :: 0 <= i < |before| ==> IsDayOf(prefix, dayKey, before[i].name);
      AccumulateNames(before, dayKey(t.date), t);
      forall i | 0 <= i < |b|
        ensures IsDayOf(ts, dayKey, b[i].name)
      {
        if i < |before| {
          assert IsDayOf(prefix, dayKey, before[i].name);
          var j :| 0 <= j < |prefix| && dayKey(prefix[j].date) == before[i].name;
          assert ts[j] == prefix[j];
        } else {
          assert dayKey(ts[|ts| - 1].date) == b[i].name;
        }
      }
    }
  }

  /** Each entry holds the sales and the profit of exactly the transactions on its day. */
  lemma {:induction false} BucketIsDayTotal(ts: seq<Transaction>, dayKey: string -> string, k: nat)
    requires k < |Bucketed(ts, dayKey)|
    ensures var b := Bucketed(ts, dayKey)[k];
            b.sales == SumOf(ts, SalesOn(dayKey, b.name)) &&
            b.profit == SumOf(ts, ProfitOn(dayKey, b.name))
  {
    var prefix, t := ts[..|ts| - 1], ts[|ts| - 1];
    assert ts == prefix + [t];
    var key := dayKey(t.date);
    var before := Bucketed(prefix, dayKey);
    var name := Bucketed(ts, dayKey)[k].name;
    AccumulateNames(before, key, t);
    AccumulateAmounts(before, key, t);
    SumOfAppend(prefix, [t], SalesOn(dayKey, name));
    SumOfAppend(prefix, [t], ProfitOn(dayKey, name));
    assert [t][1..] == [];
    if k < |before| {
      BucketIsDayTotal(prefix, dayKey, k);
      if name == key {
        BucketNamesUnique(prefix, dayKey);
        assert k == BucketIndex(before, key);
      }
    } else {
      NoEntryNoSales(prefix, dayKey, key);
    }
  }

  /** A day with no entry has no sales and no profit. */
  lemma NoEntryNoSales(ts: seq<Transaction>, dayKey: string -> string, key: string)
    requires BucketIndex(Bucketed(ts, dayKey), key) == -1
    ensures SumOf(ts, SalesOn(dayKey, key)) == 0 && SumOf(ts, ProfitOn(dayKey, key)) == 0
  {
    BucketsCoverDays(ts, dayKey);
    SumOfZeroTerms(ts, SalesOn(dayKey, key));
    SumOfZeroTerms(ts, ProfitOn(dayKey, key));
  }

  function BucketSales(b: DayBucket): int { b.sales }

  function BucketProfit(b: DayBucket): int { b.profit }

  /** Summed over the days, the chart's unsliced data gives the two dashboard totals. */
  lemma {:induction false} BucketsAddUp(ts: seq<Transaction>, dayKey: string -> string)
    ensures SumOf(Bucketed(ts, dayKey), BucketSales) == TotalRevenue(ts)
    ensures SumOf(Bucketed(ts, dayKey), BucketProfit) == TotalProfit(ts)
  {
    if ts != [] {
      var prefix, t := ts[..|ts| - 1], ts[|ts| - 1];
      assert ts == prefix + [t];
      var key := dayKey(t.date);
      var before := Bucketed(prefix, dayKey);
      BucketsAddUp(prefix, dayKey);
      TotalsAfterSale(prefix, t);
      AccumulateAddsSale(before, key, t);
    }
  }

  /** One step adds the sale's total and profit to the sums over the entries. */
  lemma AccumulateAddsSale(buckets: seq<DayBucket>, key: string, t: Transaction)
    ensures SumOf(Accumulate(buckets, key, t), BucketSales) == SumOf(buckets, BucketSales) + t.total
    ensures SumOf(Accumulate(buckets, key, t), BucketProfit) == SumOf(buckets, BucketProfit) + t.profit
  {
    var k := BucketIndex(buckets, key);
    var b := if k == -1 then buckets + [DayBucket(key, 0, 0)] else buckets;
    var j := if k == -1 then |buckets| else k;
    if k == -1 {
      SumOfAppend(buckets, [DayBucket(key, 0, 0)], BucketSales);
      SumOfAppend(buckets, [DayBucket(key, 0, 0)], BucketProfit);
      assert [DayBucket(key, 0, 0)][1..] == [];
    }
    var bumped := b[j].(sales := b[j].sales + t.total, profit := b[j].profit + t.profit);
    SumOfUpdate(b, j, bumped, BucketSales);
    SumOfUpdate(b, j, bumped, BucketProfit);
  }

  /** The chart is empty exactly when there are no transactions, which is when the
      dashboard shows its no-data message instead. */
  lemma ChartEmptyIffNoSales(ts: seq<Transaction>, dayKey: string -> string)
    ensures LastTen(Bucketed(ts, dayKey)) == [] <==> ts == []
  {
    var b := Bucketed(ts, dayKey);
    if ts != [] {
      BucketsCoverDays(ts, dayKey);
      assert BucketIndex(b, dayKey(ts[0].date)) != -1;
      assert |LastTen(b)| > 0;
    }
  }

  /** The entries follow the order in which days first occur: the first
      transaction's day has the first entry. */
  lemma {:induction false} FirstDayFirstEntry(ts: seq<Transaction>, dayKey: string -> string)
    requires ts != []
    ensures |Bucketed(ts, dayKey)| > 0 && Bucketed(ts, dayKey)[0].name == dayKey(ts[0].date)
  {
    var prefix, t := ts[..|ts| - 1], ts[|ts| - 1];
    AccumulateNames(Bucketed(prefix, dayKey), dayKey(t.date), t);
    if prefix != [] {
      FirstDayFirstEntry(prefix, dayKey);
      assert prefix[0] == ts[0];
    }
  }

  /** With more than ten days, the chart leaves out the day of the first
      transaction in the list. */
  lemma ChartOmitsFirstDay(ts: seq<Transaction>, dayKey: string -> string)
    requires |Bucketed(ts, dayKey)| > 10
    ensures ts != []
    ensures forall i :: 0 <= i < |LastTen(Bucketed(ts, dayKey))| ==>
              LastTen(Bucketed(ts, dayKey))[i].name != dayKey(ts[0].date)
  {
    var b := Bucketed(ts, dayKey);
    assert ts != [];
    FirstDayFirstEntry(ts, dayKey);
    BucketNamesUnique(ts, dayKey);
    var c := LastTen(b);
    assert c == b[|b| - 10..];
    forall i | 0 <= i < |c|
      ensures c[i].name != b[0].name
    {
      assert c[i] == b[|b| - 10 + i];
    }
  }

  /** The transactions of each day stand together in the list: each one either
      falls on the day of the one before it or on a day no earlier one had. */
  ghost predicate DaysContiguous(ts: seq<Transaction>, dayKey: string -> string)
    decreases |ts|
  {
    |ts| <= 1 ||
    (&& DaysContiguous(ts[..|ts| - 1], dayKey)
     && (|| dayKey(ts[|ts| - 1].date) == dayKey(ts[|ts| - 2].date)
         || !IsDayOf(ts[..|ts| - 1], dayKey, dayKey(ts[|ts| - 1].date))))
  }

  /** No transaction is listed before an older one, as the store appends them. */
  ghost predicate OldestFirst(ts: seq<Transaction>, time: string -> int)
  {
    forall i, j :: 0 <= i < j < |ts| ==> time(ts[i].date) <= time(ts[j].date)
  }

  /** Within the list, every day label covers an interval of time: a transaction
      between two transactions of one day falls on that day. The label has no
      year, so this holds for a history shorter than a year. */
  ghost predicate DaysAreIntervals(ts: seq<Transaction>, time: string -> int, dayKey: string -> string)
  {
    forall i, j, l ::
      (&& 0 <= i < |ts| && 0 <= j < |ts| && 0 <= l < |ts|
       && time(ts[i].date) <= time(ts[j].date) <= time(ts[l].date)
       && dayKey(ts[i].date) == dayKey(ts[l].date))
      ==> dayKey(ts[j].date) == dayKey(ts[i].date)
  }

  lemma PrefixOldestFirst(ts: seq<Transaction>, time: string -> int)
    requires ts != [] && OldestFirst(ts, time)
    ensures OldestFirst(ts[..|ts| - 1], time)
  {
    var prefix := ts[..|ts| - 1];
    forall i, j | 0 <= i < j < |prefix|
      ensures time(prefix[i].date) <= time(prefix[j].date)
    {
      assert prefix[i] == ts[i] && prefix[j] == ts[j];
    }
  }

  lemma PrefixDaysAreIntervals(ts: seq<Transaction>, time: string -> int, dayKey: string -> string)
    requires ts != [] && DaysAreIntervals(ts, time, dayKey)
    ensures DaysAreIntervals(ts[..|ts| - 1], time, dayKey)
  {
    var prefix := ts[..|ts| - 1];
    forall i, j, l |
        (&& 0 <= i < |prefix| && 0 <= j < |prefix| && 0 <= l < |prefix|
         && time(prefix[i].date) <= time(prefix[j].date) <= time(prefix[l].date)
         && dayKey(prefix[i].date) == dayKey(prefix[l].date))
      ensures dayKey(prefix[j].date) == dayKey(prefix[i].date)
    {
      assert prefix[i] == ts[i] && prefix[j] == ts[j] && prefix[l] == ts[l];
    }
  }

  /** In the store's order, a last transaction on another day than the one before
      it falls on a day no earlier transaction had. */
  lemma NewDayUnseen(ts: seq<Transaction>, time: string -> int, dayKey: string -> string)
    requires |ts| >= 2 && OldestFirst(ts, time) && DaysAreIntervals(ts, time, dayKey)
    requires dayKey(ts[|ts| - 1].date) != dayKey(ts[|ts| - 2].date)
    ensures !IsDayOf(ts[..|ts| - 1], dayKey, dayKey(ts[|ts| - 1].date))
  {
    var n, prefix := |ts|, ts[..|ts| - 1];
    forall i | 0 <= i < |prefix|
      ensures dayKey(prefix[i].date) != dayKey(ts[n - 1].date)
    {
      assert prefix[i] == ts[i];
      assert time(ts[i].date) <= time(ts[n - 2].date) <= time(ts[n - 1].date);
    }
  }

  /** A list in the store's order keeps each day's transactions together. */
  lemma {:induction false} OldestFirstDaysContiguous(ts: seq<Transaction>, time: string -> int, dayKey: string -> string)
    requires OldestFirst(ts, time) && DaysAreIntervals(ts, time, dayKey)
    ensures DaysContiguous(ts, dayKey)
  {
    if |ts| > 1 {
      PrefixOldestFirst(ts, time);
      PrefixDaysAreIntervals(ts, time, dayKey);
      OldestFirstDaysContiguous(ts[..|ts| - 1], time, dayKey);
      if dayKey(ts[|ts| - 1].date) != dayKey(ts[|ts| - 2].date) {
        NewDayUnseen(ts, time, dayKey);
      }
    }
  }

  lemma EntryIsDay(ts: seq<Transaction>, dayKey: string -> string, k: nat)
    requires k < |Bucketed(ts, dayKey)|
    ensures IsDayOf(ts, dayKey, Bucketed(ts, dayKey)[k].name)
  {
    BucketsAreDays(ts, dayKey);
  }

  /** A step whose day is new, or is the day of the last entry, leaves that day last. */
  lemma AccumulateLastName(buckets: seq<DayBucket>, key: string, t: Transaction)
    requires BucketIndex(buckets, key) == -1 || (|buckets| > 0 && buckets[|buckets| - 1].name == key)
    ensures |Accumulate(buckets, key, t)| > 0
    ensures Accumulate(buckets, key, t)[|Accumulate(buckets, key, t)| - 1].name == key
  {
    AccumulateNames(buckets, key, t);
  }

  /** In a list whose days stand together, a last transaction whose day already
      has an entry falls on the day of the one before it. */
  lemma SeenDayContinues(ts: seq<Transaction>, dayKey: string -> string)
    requires |ts| >= 2 && DaysContiguous(ts, dayKey)
    ensures DaysContiguous(ts[..|ts| - 1], dayKey)
    ensures BucketIndex(Bucketed(ts[..|ts| - 1], dayKey), dayKey(ts[|ts| - 1].date)) != -1 ==>
              dayKey(ts[|ts| - 2].date) == dayKey(ts[|ts| - 1].date)
  {
    var prefix := ts[..|ts| - 1];
    var k := BucketIndex(Bucketed(prefix, dayKey), dayKey(ts[|ts| - 1].date));
    if k != -1 {
      EntryIsDay(prefix, dayKey, k);
    }
  }

  /** The entries end with the day of the last transaction once they ended with the
      day of the one before it and a day seen before is that same day. */
  lemma LastEntryStep(ts: seq<Transaction>, dayKey: string -> string)
    requires |ts| >= 2
    requires var before := Bucketed(ts[..|ts| - 1], dayKey);
             |before| > 0 && before[|before| - 1].name == dayKey(ts[|ts| - 2].date)
    requires BucketIndex(Bucketed(ts[..|ts| - 1], dayKey), dayKey(ts[|ts| - 1].date)) != -1 ==>
               dayKey(ts[|ts| - 2].date) == dayKey(ts[|ts| - 1].date)
    ensures |Bucketed(ts, dayKey)| > 0
    ensures Bucketed(ts, dayKey)[|Bucketed(ts, dayKey)| - 1].name == dayKey(ts[|ts| - 1].date)
  {
    var before, t := Bucketed(ts[..|ts| - 1], dayKey), ts[|ts| - 1];
    AccumulateLastName(before, dayKey(t.date), t);
    assert Bucketed(ts, dayKey) == Accumulate(before, dayKey(t.date), t);
  }

  /** When each day's transactions stand together, the last entry is the last
      transaction's day. */
  lemma {:induction false} LastDayLastEntry(ts: seq<Transaction>, dayKey: string -> string)
    requires ts != [] && DaysContiguous(ts, dayKey)
    ensures |Bucketed(ts, dayKey)| > 0
    ensures Bucketed(ts, dayKey)[|Bucketed(ts, dayKey)| - 1].name == dayKey(ts[|ts| - 1].date)
  {
    var prefix := ts[..|ts| - 1];
    if |ts| == 1 {
      assert prefix == [];
      AccumulateLastName([], dayKey(ts[0].date), ts[0]);
    } else {
      SeenDayContinues(ts, dayKey);
      LastDayLastEntry(prefix, dayKey);
      assert prefix[|prefix| - 1] == ts[|ts| - 2];
      LastEntryStep(ts, dayKey);
    }
  }

  /** When each day's transactions stand together, the chart ends with the last
      transaction's day. */
  lemma ChartEndsWithLastDay(ts: seq<Transaction>, dayKey: string -> string)
    requires ts != [] && DaysContiguous(ts, dayKey)
    ensures |LastTen(Bucketed(ts, dayKey))| > 0
    ensures LastTen(Bucketed(ts, dayKey))[|LastTen(Bucketed(ts, dayKey))| - 1].name == dayKey(ts[|ts| - 1].date)
  {
    LastDayLastEntry(ts, dayKey);
    var b := Bucketed(ts, dayKey);
    assert LastTen(b)[|LastTen(b)| - 1] == b[|b| - 1];
  }

  /** Over the store's order the chart ends with the newest transaction's day. */
  lemma ChartEndsWithNewestDay(ts: seq<Transaction>, time: string -> int, dayKey: string -> string)
    requires ts != [] && OldestFirst(ts, time) && DaysAreIntervals(ts, time, dayKey)
    ensures forall i :: 0 <= i < |ts| ==> time(ts[i].date) <= time(ts[|ts| - 1].date)
    ensures |LastTen(Bucketed(ts, dayKey))| > 0
    ensures LastTen(Bucketed(ts, dayKey))[|LastTen(Bucketed(ts, dayKey))| - 1].name == dayKey(ts[|ts| - 1].date)
  {
    OldestFirstDaysContiguous(ts, time, dayKey);
    ChartEndsWithLastDay(ts, dayKey);
  }

  // ---------------------------------------------------------------------------
  // The stat card

  /** The three font sizes of the stat card, largest last. */
  datatype SizeClass = TextLg | TextXl | Text2xl

  /** `sizeClass` (Dashboard.tsx:27-33), from the formatted value's length. */
  function SizeClassFor(valueStr: string): (c: SizeClass)
    ensures c == TextLg <==> |valueStr| > 15
    ensures c == TextXl <==> 11 < |valueStr| <= 15
    ensures c == Text2xl <==> |valueStr| <= 11
  {
    if |valueStr| > 15 then TextLg
    else if |valueStr| > 11 then TextXl
    else Text2xl
  }

  function FontRank(c: SizeClass): nat
  {
    match c
    case TextLg => 0
    case TextXl => 1
    case Text2xl => 2
  }

  /** A longer value never gets a larger font. */
  lemma SizeClassMonotone(a: string, b: string)
    requires |a| <= |b|
    ensures FontRank(SizeClassFor(b)) <= FontRank(SizeClassFor(a))
  {
  }
}
