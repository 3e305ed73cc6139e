/** The computations behind the analytics dashboard: the current-stock map,
    the per-item daily trends built from the stock history, the colour of
    each item's line and the restock predictions. */
module StockAnalytics {
  import opened Wrappers

  /** Timestamps are integer milliseconds since the epoch; the calendar day
      of `toISOString().split('T')[0]` is the UTC day `timestamp / MillisPerDay`
      (Dafny's division rounds down for a positive divisor, as the calendar does). */
  const MillisPerDay: int := 86400000

  function Day(timestamp: int): int {
    timestamp / MillisPerDay
  }

  lemma DayMonotone(a: int, b: int)
    requires a <= b
    ensures Day(a) <= Day(b)
  {
  }

  // ----- Current stock -----

  datatype CurrentItem = CurrentItem(name: string, quantity: int)

  /** The object the `reduce` builds: later items overwrite earlier ones of the same name. */
  function StockMapOf(items: seq<CurrentItem>): map<string, int>
    decreases |items|
  {
    if items == [] then map[]
    else StockMapOf(items[..|items| - 1])[items[|items| - 1].name := items[|items| - 1].quantity]
  }

  /** A name is in the map exactly when some item carries it, and it maps to
      the quantity of the last such item. */
  lemma {:induction false} StockMapLastWins(items: seq<CurrentItem>)
    ensures forall n :: n in StockMapOf(items) <==> exists i :: 0 <= i < |items| && items[i].name == n
    ensures forall i :: 0 <= i < |items| && (forall j :: i < j < |items| ==> items[j].name != items[i].name) ==>
              StockMapOf(items)[items[i].name] == items[i].quantity
    decreases |items|
  {
    if items != [] {
      var init := items[..|items| - 1];
      StockMapLastWins(init);
      forall n | n in StockMapOf(items) ensures exists i :: 0 <= i < |items| && items[i].name == n {
        if n != items[|items| - 1].name {
          var i :| 0 <= i < |init| && init[i].name == n;
          assert items[i] == init[i];
        }
      }
      forall i | 0 <= i < |items| && (forall j :: i < j < |items| ==> items[j].name != items[i].name)
        ensures StockMapOf(items)[items[i].name] == items[i].quantity
      {
        if i < |init| {
          assert items[i] == init[i];
          forall j | i < j < |init| ensures init[j].name != init[i].name {
            assert items[j] == init[j];
          }
        }
      }
      forall n | (exists i :: 0 <= i < |items| && items[i].name == n) ensures n in StockMapOf(items) {
        var i :| 0 <= i < |items| && items[i].name == n;
        if i < |init| {
          assert init[i] == items[i];
        }
      }
    }
  }

  /** `currentStockMap`, built item by item. */
  method CurrentStockMap(items: seq<CurrentItem>) returns (acc: map<string, int>)
    ensures acc == StockMapOf(items)
  {
    acc := map[];
    var i := 0;
    while i < |items|
      invariant 0 <= i <= |items|
      invariant acc == StockMapOf(items[..i])
    {
      assert items[..i + 1][..i] == items[..i];
      acc := acc[items[i].name := items[i].quantity];
      i := i + 1;
    }
    assert items[..|items|] == items;
  }

  /** `currentStockMap[itemName] || 0`. */
  function CurrentStock(stock: map<string, int>, name: string): (r: int)
    ensures name in stock ==> r == stock[name]
    ensures name !in stock ==> r == 0
  {
    if name in stock then stock[name] else 0
  }

  // ----- Grouping the history by item and day -----

  datatype HistoryPoint = HistoryPoint(itemName: string, quantity: int, timestamp: int)

  /** The per-item object of day entries; `entries` lists one point per day,
      in the order the days first appeared. */
  datatype Bucket = Bucket(itemName: string, entries: seq<HistoryPoint>)

  /** Two points for the same item on the same day compete for one entry. */
  predicate SameSlot(p: HistoryPoint, q: HistoryPoint) {
    p.itemName == q.itemName && Day(p.timestamp) == Day(q.timestamp)
  }

  /** The position of the entry for `day`, or -1. */
  function FindDay(entries: seq<HistoryPoint>, day: int): (k: int)
    ensures -1 <= k < |entries|
    ensures k >= 0 ==> Day(entries[k].timestamp) == day
    ensures k < 0 ==> forall j :: 0 <= j < |entries| ==> Day(entries[j].timestamp) != day
    decreases |entries|
  {
    if entries == [] then -1
    else if Day(entries[|entries| - 1].timestamp) == day then |entries| - 1
    else FindDay(entries[..|entries| - 1], day)
  }

  /** The position of the bucket for `name`, or -1. */
  function FindBucket(buckets: seq<Bucket>, name: string): (k: int)
    ensures -1 <= k < |buckets|
    ensures k >= 0 ==> buckets[k].itemName == name
    ensures k < 0 ==> forall j :: 0 <= j < |buckets| ==> buckets[j].itemName != name
    decreases |buckets|
  {
    if buckets == [] then -1
    else if buckets[|buckets| - 1].itemName == name then |buckets| - 1
    else FindBucket(buckets[..|buckets| - 1], name)
  }

  /** A point takes its day's entry when the day has none, or when it is
      strictly later than the entry there. */
  function Keep(entries: seq<HistoryPoint>, p: HistoryPoint): seq<HistoryPoint> {
    var k := FindDay(entries, Day(p.timestamp));
    if k < 0 then entries + [p]
    else if p.timestamp > entries[k].timestamp then entries[k := p]
    else entries
  }

  /** One step of the `reduce` over the history. */
  function AddPoint(buckets: seq<Bucket>, p: HistoryPoint): seq<Bucket> {
    var k := FindBucket(buckets, p.itemName);
    if k < 0 then buckets + [Bucket(p.itemName, [p])]
    else buckets[k := Bucket(p.itemName, Keep(buckets[k].entries, p))]
  }

  /** The history grouped by item name and then by day. */
  function Group(history: seq<HistoryPoint>): seq<Bucket>
    decreases |history|
  {
    if history == [] then []
    else AddPoint(Group(history[..|history| - 1]), history[|history| - 1])
  }

  /** `e` is the point the history keeps for its slot: no point of that slot
      is later, and every one before it is strictly earlier, so on a tie the
      first one seen stays. */
  ghost predicate Kept(history: seq<HistoryPoint>, e: HistoryPoint) {
    && (forall j :: 0 <= j < |history| && SameSlot(history[j], e) ==> history[j].timestamp <= e.timestamp)
    && exists m :: 0 <= m < |history| && history[m] == e &&
         forall j :: 0 <= j < m && SameSlot(history[j], e) ==> history[j].timestamp < e.timestamp
  }

  ghost predicate DistinctNames(buckets: seq<Bucket>) {
    forall i, j :: 0 <= i < j < |buckets| ==> buckets[i].itemName != buckets[j].itemName
  }

  ghost predicate DistinctDays(entries: seq<HistoryPoint>) {
    forall i, j :: 0 <= i < j < |entries| ==> Day(entries[i].timestamp) != Day(entries[j].timestamp)
  }

  /** One bucket per name, each with at least one entry, one entry per day,
      every entry filed under its own item's name. */
  ghost predicate Shaped(buckets: seq<Bucket>) {
    && DistinctNames(buckets)
    && (forall i :: 0 <= i < |buckets| ==> |buckets[i].entries| >= 1 && DistinctDays(buckets[i].entries))
    && (forall i, k :: 0 <= i < |buckets| && 0 <= k < |buckets[i].entries| ==>
          buckets[i].entries[k].itemName == buckets[i].itemName)
  }

  /** Every entry is the point the history keeps for its slot. */
  ghost predicate AllKept(history: seq<HistoryPoint>, buckets: seq<Bucket>) {
    forall i, k :: 0 <= i < |buckets| && 0 <= k < |buckets[i].entries| ==> Kept(history, buckets[i].entries[k])
  }

  /** The buckets have an entry for the slot of `q`. */
  predicate HasSlot(buckets: seq<Bucket>, q: HistoryPoint) {
    var b := FindBucket(buckets, q.itemName);
    b >= 0 && FindDay(buckets[b].entries, Day(q.timestamp)) >= 0
  }

  /** Every point of the history has an entry for its slot. */
  ghost predicate Covered(history: seq<HistoryPoint>, buckets: seq<Bucket>) {
    forall j :: 0 <= j < |history| ==> HasSlot(buckets, history[j])
  }

  /** What the grouping promises about a history. */
  ghost predicate Grouped(history: seq<HistoryPoint>, buckets: seq<Bucket>) {
    Shaped(buckets) && AllKept(history, buckets) && Covered(history, buckets)
  }

  lemma {:induction false} FindBucketSameNames(a: seq<Bucket>, b: seq<Bucket>, name: string)
    requires |a| == |b| && forall i :: 0 <= i < |a| ==> a[i].itemName == b[i].itemName
    ensures FindBucket(a, name) == FindBucket(b, name)
    decreases |a|
  {
    if a != [] {
      FindBucketSameNames(a[..|a| - 1], b[..|b| - 1], name);
    }
  }

  lemma {:induction false} FindDaySameDays(a: seq<HistoryPoint>, b: seq<HistoryPoint>, day: int)
    requires |a| == |b| && forall i :: 0 <= i < |a| ==> Day(a[i].timestamp) == Day(b[i].timestamp)
    ensures FindDay(a, day) == FindDay(b, day)
    decreases |a|
  {
    if a != [] {
      FindDaySameDays(a[..|a| - 1], b[..|b| - 1], day);
    }
  }

  lemma FindBucketAppend(a: seq<Bucket>, nb: Bucket, name: string)
    ensures FindBucket(a + [nb], name) == if nb.itemName == name then |a| else FindBucket(a, name)
  {
    assert (a + [nb])[..|a|] == a;
  }

  lemma FindDayAppend(a: seq<HistoryPoint>, p: HistoryPoint, day: int)
    ensures FindDay(a + [p], day) == if Day(p.timestamp) == day then |a| else FindDay(a, day)
  {
    assert (a + [p])[..|a|] == a;
  }

  /** A kept point stays kept when a point of another slot, or a point of its
      slot that is not later, comes in. */
  lemma KeptExtend(history: seq<HistoryPoint>, p: HistoryPoint, e: HistoryPoint)
    requires Kept(history, e)
    requires SameSlot(p, e) ==> p.timestamp <= e.timestamp
    ensures Kept(history + [p], e)
  {
    var h := history + [p];
    var m :| 0 <= m < |history| && history[m] == e &&
             forall j :: 0 <= j < m && SameSlot(history[j], e) ==> history[j].timestamp < e.timestamp;
    assert h[m] == e;
    forall j | 0 <= j < m && SameSlot(h[j], e) ensures h[j].timestamp < e.timestamp {
      assert h[j] == history[j];
    }
    forall j | 0 <= j < |h| && SameSlot(h[j], e) ensures h[j].timestamp <= e.timestamp {
      if j < |history| {
        assert h[j] == history[j];
      }
    }
  }

  /** A point later than every earlier point of its slot is kept. */
  lemma KeptNew(history: seq<HistoryPoint>, p: HistoryPoint)
    requires forall j :: 0 <= j < |history| && SameSlot(history[j], p) ==> history[j].timestamp < p.timestamp
    ensures Kept(history + [p], p)
  {
    var h := history + [p];
    assert h[|history|] == p;
    forall j | 0 <= j < |history| && SameSlot(h[j], p) ensures h[j].timestamp < p.timestamp {
      assert h[j] == history[j];
    }
  }

  /** The shape survives every step. */
  lemma AddPointShaped(buckets: seq<Bucket>, p: HistoryPoint)
    requires Shaped(buckets)
    ensures Shaped(AddPoint(buckets, p))
  {
    var b := FindBucket(buckets, p.itemName);
    if b >= 0 {
      var old_ := buckets[b].entries;
      var d := FindDay(old_, Day(p.timestamp));
      var entries := Keep(old_, p);
      assert DistinctDays(entries) by {
        if d >= 0 && p.timestamp > old_[d].timestamp {
          assert forall k :: 0 <= k < |old_| ==> Day(entries[k].timestamp) == Day(old_[k].timestamp);
        }
      }
      assert forall k :: 0 <= k < |entries| ==> entries[k].itemName == p.itemName;
    }
  }

  /** A step keeps every slot present and adds the new point's slot. */
  lemma AddPointHasSlot(buckets: seq<Bucket>, p: HistoryPoint, q: HistoryPoint)
    requires Shaped(buckets) && (HasSlot(buckets, q) || q == p)
    ensures HasSlot(AddPoint(buckets, p), q)
  {
    var r := AddPoint(buckets, p);
    var b := FindBucket(buckets, p.itemName);
    if b < 0 {
      FindBucketAppend(buckets, Bucket(p.itemName, [p]), q.itemName);
    } else {
      var old_ := buckets[b].entries;
      var d := FindDay(old_, Day(p.timestamp));
      FindBucketSameNames(r, buckets, q.itemName);
      if d < 0 {
        FindDayAppend(old_, p, Day(q.timestamp));
      } else if p.timestamp > old_[d].timestamp {
        FindDaySameDays(old_[d := p], old_, Day(q.timestamp));
      }
    }
  }

  /** Every point's slot stays present, and the new point's slot is present. */
  lemma AddPointCovered(history: seq<HistoryPoint>, p: HistoryPoint, buckets: seq<Bucket>)
    requires Shaped(buckets) && Covered(history, buckets)
    ensures Covered(history + [p], AddPoint(buckets, p))
  {
    var h := history + [p];
    forall j | 0 <= j < |h| ensures HasSlot(AddPoint(buckets, p), h[j]) {
      if j < |history| {
        assert h[j] == history[j];
      }
      AddPointHasSlot(buckets, p, h[j]);
    }
  }

  /** The new point does not belong to the slot of an entry it does not replace. */
  lemma KeptForNewBucket(history: seq<HistoryPoint>, p: HistoryPoint, buckets: seq<Bucket>)
    requires Grouped(history, buckets) && FindBucket(buckets, p.itemName) < 0
    ensures AllKept(history + [p], AddPoint(buckets, p))
  {
    var r := AddPoint(buckets, p);
    assert forall j :: 0 <= j < |history| ==> !SameSlot(history[j], p) by {
      forall j | 0 <= j < |history| ensures history[j].itemName != p.itemName {
        assert HasSlot(buckets, history[j]);
      }
    }
    KeptNew(history, p);
    forall i, k | 0 <= i < |r| && 0 <= k < |r[i].entries| ensures Kept(history + [p], r[i].entries[k]) {
      if i < |buckets| {
        KeptExtend(history, p, buckets[i].entries[k]);
      }
    }
  }

  lemma KeptForNewDay(history: seq<HistoryPoint>, p: HistoryPoint, buckets: seq<Bucket>)
    requires Grouped(history, buckets)
    requires var b := FindBucket(buckets, p.itemName);
             b >= 0 && FindDay(buckets[b].entries, Day(p.timestamp)) < 0
    ensures AllKept(history + [p], AddPoint(buckets, p))
  {
    var b := FindBucket(buckets, p.itemName);
    var old_ := buckets[b].entries;
    var r := AddPoint(buckets, p);
    assert r == buckets[b := Bucket(p.itemName, old_ + [p])];
    assert forall j :: 0 <= j < |history| ==> !SameSlot(history[j], p) by {
      forall j | 0 <= j < |history| && history[j].itemName == p.itemName
        ensures Day(history[j].timestamp) != Day(p.timestamp)
      {
        assert HasSlot(buckets, history[j]);
      }
    }
    KeptNew(history, p);
    forall i, k | 0 <= i < |r| && 0 <= k < |r[i].entries| ensures Kept(history + [p], r[i].entries[k]) {
      if i != b {
        KeptExtend(history, p, buckets[i].entries[k]);
      } else if k < |old_| {
        KeptExtend(history, p, old_[k]);
      }
    }
  }

  lemma KeptForLaterPoint(history: seq<HistoryPoint>, p: HistoryPoint, buckets: seq<Bucket>)
    requires Grouped(history, buckets)
    requires var b := FindBucket(buckets, p.itemName);
             (b >= 0 &&
              var d := FindDay(buckets[b].entries, Day(p.timestamp));
              (d >= 0 && p.timestamp > buckets[b].entries[d].timestamp))
    ensures AllKept(history + [p], AddPoint(buckets, p))
  {
    var b := FindBucket(buckets, p.itemName);
    var old_ := buckets[b].entries;
    var d := FindDay(old_, Day(p.timestamp));
    var r := AddPoint(buckets, p);
    assert r == buckets[b := Bucket(p.itemName, old_[d := p])];
    assert Kept(history, old_[d]);
    KeptNew(history, p);
    forall i, k | 0 <= i < |r| && 0 <= k < |r[i].entries| ensures Kept(history + [p], r[i].entries[k]) {
      if i != b {
        KeptExtend(history, p, buckets[i].entries[k]);
      } else if k != d {
        assert Day(old_[k].timestamp) != Day(old_[d].timestamp);
        KeptExtend(history, p, old_[k]);
      }
    }
  }

  lemma KeptForEarlierPoint(history: seq<HistoryPoint>, p: HistoryPoint, buckets: seq<Bucket>)
    requires Grouped(history, buckets)
    requires var b := FindBucket(buckets, p.itemName);
             (b >= 0 &&
              var d := FindDay(buckets[b].entries, Day(p.timestamp));
              (d >= 0 && p.timestamp <= buckets[b].entries[d].timestamp))
    ensures AllKept(history + [p], AddPoint(buckets, p))
  {
    var b := FindBucket(buckets, p.itemName);
    var old_ := buckets[b].entries;
    var d := FindDay(old_, Day(p.timestamp));
    assert AddPoint(buckets, p) == buckets;
    forall i, k | 0 <= i < |buckets| && 0 <= k < |buckets[i].entries| ensures Kept(history + [p], buckets[i].entries[k]) {
      if i == b && k != d {
        assert Day(old_[k].timestamp) != Day(old_[d].timestamp);
      }
      KeptExtend(history, p, buckets[i].entries[k]);
    }
  }

  lemma GroupStep(history: seq<HistoryPoint>, p: HistoryPoint, buckets: seq<Bucket>)
    requires Grouped(history, buckets)
    ensures Grouped(history + [p], AddPoint(buckets, p))
  {
    AddPointShaped(buckets, p);
    AddPointCovered(history, p, buckets);
    var b := FindBucket(buckets, p.itemName);
    if b < 0 {
      KeptForNewBucket(history, p, buckets);
    } else {
      var d := FindDay(buckets[b].entries, Day(p.timestamp));
      if d < 0 {
        KeptForNewDay(history, p, buckets);
      } else if p.timestamp > buckets[b].entries[d].timestamp {
        KeptForLaterPoint(history, p, buckets);
      } else {
        KeptForEarlierPoint(history, p, buckets);
      }
    }
  }

  /** The grouping of any history has one bucket per item name, one entry per
      day, each entry the point its slot keeps, and every point's slot present. */
  lemma {:induction false} GroupIsGrouped(history: seq<HistoryPoint>)
    ensures Grouped(history, Group(history))
    decreases |history|
  {
    if history != [] {
      var init := history[..|history| - 1];
      GroupIsGrouped(init);
      assert init + [history[|history| - 1]] == history;
      GroupStep(init, history[|history| - 1], Group(init));
    }
  }

  /** A bucket exists exactly for the names the history mentions. */
  lemma GroupNames(history: seq<HistoryPoint>, name: string)
    ensures FindBucket(Group(history), name) >= 0 <==> exists j :: 0 <= j < |history| && history[j].itemName == name
  {
    var g := Group(history);
    GroupIsGrouped(history);
    var b := FindBucket(g, name);
    if b >= 0 {
      var e := g[b].entries[0];
      assert Kept(history, e);
      var m :| 0 <= m < |history| && history[m] == e &&
               forall j :: 0 <= j < m && SameSlot(history[j], e) ==> history[j].timestamp < e.timestamp;
      assert history[m].itemName == name;
    }
    if exists j :: 0 <= j < |history| && history[j].itemName == name {
      var j :| 0 <= j < |history| && history[j].itemName == name;
      assert HasSlot(g, history[j]);
    }
  }

  /** The grouping `reduce`: for each point, create the item's object when it
      is missing, then take the day's entry when the day is new or the point
      is strictly later. */
  method GroupHistory(history: seq<HistoryPoint>) returns (acc: seq<Bucket>)
    ensures acc == Group(history)
  {
    acc := [];
    var i := 0;
    while i < |history|
      invariant 0 <= i <= |history|
      invariant acc == Group(history[..i])
    {
      assert history[..i + 1][..i] == history[..i];
      ghost var expected := AddPoint(acc, history[i]);
      var curr := history[i];
      var k := FindBucket(acc, curr.itemName);
      ghost var found := k;
      ghost var before := acc;
      if k < 0 {
        acc := acc + [Bucket(curr.itemName, [])];
        k := |acc| - 1;
        assert FindDay(acc[k].entries, Day(curr.timestamp)) < 0;
        assert acc[k].entries + [curr] == [curr];
        assert acc[k := acc[k].(entries := acc[k].entries + [curr])] == before + [Bucket(curr.itemName, [curr])];
      }
      var date := Day(curr.timestamp);
      var d := FindDay(acc[k].entries, date);
      assert acc[k] == Bucket(curr.itemName, acc[k].entries);
      if d < 0 {
        acc := acc[k := acc[k].(entries := acc[k].entries + [curr])];
      } else if curr.timestamp > acc[k].entries[d].timestamp {
        acc := acc[k := acc[k].(entries := acc[k].entries[d := curr])];
      }
      if found < 0 {
        assert acc == before + [Bucket(curr.itemName, [curr])];
      } else {
        assert acc == before[found := Bucket(curr.itemName, Keep(before[found].entries, curr))];
      }
      i := i + 1;
    }
    assert history[..|history|] == history;
  }

  // ----- Trends -----

  /** A chart point; `date` is the day number standing for the date string. */
  datatype TrendPoint = TrendPoint(name: string, quantity: int, date: int, timestamp: int)

  datatype Trend = Trend(itemName: string, points: seq<TrendPoint>)

  predicate SortedByTime(ps: seq<TrendPoint>) {
    forall i, j :: 0 <= i < j < |ps| ==> ps[i].timestamp <= ps[j].timestamp
  }

  /** Insertion into a list sorted by timestamp, after every point that is not later. */
  function Insert(x: TrendPoint, ps: seq<TrendPoint>): (r: seq<TrendPoint>)
    requires SortedByTime(ps)
    ensures SortedByTime(r)
    ensures multiset(r) == multiset(ps) + multiset{x}
    decreases |ps|
  {
    if ps == [] then [x]
    else if x.timestamp < ps[0].timestamp then [x] + ps
    else
      var rest := Insert(x, ps[1..]);
      assert ps == [ps[0]] + ps[1..];
      InsertAfter(ps[0], x, ps[1..], rest);
      [ps[0]] + rest
  }

  /** A point not later than `x` and than all of `ps` may precede `x` inserted into `ps`. */
  lemma InsertAfter(first: TrendPoint, x: TrendPoint, ps: seq<TrendPoint>, rest: seq<TrendPoint>)
    requires SortedByTime([first] + ps) && first.timestamp <= x.timestamp
    requires SortedByTime(rest) && multiset(rest) == multiset(ps) + multiset{x}
    ensures SortedByTime([first] + rest)
  {
    forall y | y in rest ensures first.timestamp <= y.timestamp {
      assert y in multiset(rest);
      if y != x {
        assert multiset(rest)[y] == multiset(ps)[y] + multiset{x}[y];
        assert y in multiset(ps);
        assert y in ps;
        var k :| 0 <= k < |ps| && ps[k] == y;
        var s := [first] + ps;
        assert s[0] == first && s[k + 1] == y;
        assert s[0].timestamp <= s[k + 1].timestamp;
      }
    }
    var s := [first] + rest;
    forall i, j | 0 <= i < j < |s| ensures s[i].timestamp <= s[j].timestamp {
      if i == 0 {
        assert s[j] == rest[j - 1];
        assert rest[j - 1] in rest;
      } else {
        assert s[i] == rest[i - 1] && s[j] == rest[j - 1];
      }
    }
  }

  /** `sort` by ascending timestamp: a sorted permutation of the points. */
  function SortByTime(ps: seq<TrendPoint>): (r: seq<TrendPoint>)
    ensures SortedByTime(r)
    ensures multiset(r) == multiset(ps)
    decreases |ps|
  {
    if ps == [] then []
    else
      assert ps == [ps[0]] + ps[1..];
      Insert(ps[0], SortByTime(ps[1..]))
  }

  function ToTrendPoint(name: string, e: HistoryPoint): TrendPoint {
    TrendPoint(name, e.quantity, Day(e.timestamp), e.timestamp)
  }

  /** An item's trend: its day entries as chart points, sorted by time. */
  function TrendOf(b: Bucket): Trend {
    Trend(b.itemName, SortByTime(seq(|b.entries|, k requires 0 <= k < |b.entries| => ToTrendPoint(b.itemName, b.entries[k]))))
  }

  /** `stockTrends`, in the order the item names first appear in the history. */
  function StockTrends(history: seq<HistoryPoint>): (r: seq<Trend>)
    ensures |r| == |Group(history)|
    ensures forall i :: 0 <= i < |r| ==> r[i] == TrendOf(Group(history)[i])
  {
    var g := Group(history);
    seq(|g|, i requires 0 <= i < |g| => TrendOf(g[i]))
  }

  ghost predicate DistinctDates(ps: seq<TrendPoint>) {
    forall i, j :: 0 <= i < j < |ps| ==> ps[i].date != ps[j].date
  }

  lemma InMultiset(y: TrendPoint, a: seq<TrendPoint>, b: seq<TrendPoint>)
    requires multiset(a) == multiset(b) && y in a
    ensures y in b
  {
    assert y in multiset(a);
  }

  lemma {:induction false} InsertDistinct(x: TrendPoint, ps: seq<TrendPoint>)
    requires SortedByTime(ps) && DistinctDates(ps)
    requires forall y :: y in ps ==> y.date != x.date
    ensures DistinctDates(Insert(x, ps))
    decreases |ps|
  {
    if ps != [] && x.timestamp >= ps[0].timestamp {
      var rest := Insert(x, ps[1..]);
      assert ps == [ps[0]] + ps[1..];
      InsertDistinct(x, ps[1..]);
      forall y | y in rest ensures y.date != ps[0].date {
        assert y in multiset(rest);
        assert multiset(rest)[y] == multiset(ps[1..])[y] + multiset{x}[y];
        if y != x {
          assert y in multiset(ps[1..]);
          var k :| 0 <= k < |ps[1..]| && ps[1..][k] == y;
          assert ps[k + 1] == y;
        }
      }
      var r := [ps[0]] + rest;
      forall i, j | 0 <= i < j < |r| ensures r[i].date != r[j].date {
        assert r[j] == rest[j - 1];
        if i > 0 {
          assert r[i] == rest[i - 1];
        } else {
          assert rest[j - 1] in rest;
        }
      }
    }
  }

  /** Sorting keeps the dates distinct. */
  lemma {:induction false} SortDistinct(ps: seq<TrendPoint>)
    requires DistinctDates(ps)
    ensures DistinctDates(SortByTime(ps))
    decreases |ps|
  {
    if ps != [] {
      var rest := SortByTime(ps[1..]);
      assert DistinctDates(ps[1..]) by {
        forall i, j | 0 <= i < j < |ps[1..]| ensures ps[1..][i].date != ps[1..][j].date {
          assert ps[1..][i] == ps[i + 1] && ps[1..][j] == ps[j + 1];
        }
      }
      SortDistinct(ps[1..]);
      forall y | y in rest ensures y.date != ps[0].date {
        InMultiset(y, rest, ps[1..]);
        var k :| 0 <= k < |ps[1..]| && ps[1..][k] == y;
        assert ps[k + 1] == y;
      }
      InsertDistinct(ps[0], rest);
    }
  }

  /** Strictly increasing timestamps, and dates, along the list. */
  predicate Chronological(ps: seq<TrendPoint>) {
    forall i, j :: 0 <= i < j < |ps| ==> ps[i].timestamp < ps[j].timestamp && ps[i].date < ps[j].date
  }

  /** A bucket's chart points: one per entry, dated by the entry's day. */
  function EntryPoints(b: Bucket): (r: seq<TrendPoint>)
    ensures |r| == |b.entries|
    ensures forall k :: 0 <= k < |r| ==> r[k].name == b.itemName && r[k].date == Day(r[k].timestamp)
  {
    seq(|b.entries|, k requires 0 <= k < |b.entries| => ToTrendPoint(b.itemName, b.entries[k]))
  }

  /** Each item's trend lists its kept day entries, each exactly once, in
      chronological order with one point per day. */
  lemma TrendsChronological(history: seq<HistoryPoint>)
    ensures forall i :: 0 <= i < |StockTrends(history)| ==>
              var t := StockTrends(history)[i];
              && t.itemName == Group(history)[i].itemName
              && multiset(t.points) == multiset(EntryPoints(Group(history)[i]))
              && Chronological(t.points)
              && forall k :: 0 <= k < |t.points| ==> t.points[k].name == t.itemName
  {
    var g := Group(history);
    GroupIsGrouped(history);
    forall i | 0 <= i < |g|
      ensures var t := TrendOf(g[i]);
              && multiset(t.points) == multiset(EntryPoints(g[i]))
              && Chronological(t.points)
              && forall k :: 0 <= k < |t.points| ==> t.points[k].name == t.itemName
    {
      var ep := EntryPoints(g[i]);
      assert TrendOf(g[i]).points == SortByTime(ep);
      TrendPointsChronological(g[i]);
    }
  }

  lemma TrendPointsChronological(b: Bucket)
    requires DistinctDays(b.entries)
    ensures var ps := SortByTime(EntryPoints(b));
            && Chronological(ps)
            && forall k :: 0 <= k < |ps| ==> ps[k].name == b.itemName
  {
    var ep := EntryPoints(b);
    var ps := SortByTime(ep);
    assert DistinctDates(ep);
    SortDistinct(ep);
    forall k | 0 <= k < |ps| ensures ps[k].name == b.itemName && ps[k].date == Day(ps[k].timestamp) {
      assert ps[k] in ps;
      InMultiset(ps[k], ps, ep);
    }
    forall i, j | 0 <= i < j < |ps| ensures ps[i].timestamp < ps[j].timestamp && ps[i].date < ps[j].date {
      DayMonotone(ps[i].timestamp, ps[j].timestamp);
    }
  }

  // ----- Colours -----

  const Colors: seq<string> := ["#2563eb", "#dc2626", "#16a34a", "#9333ea", "#ea580c", "#0891b2", "#4f46e5"]

  /** `itemColors`: each name's colour by its position, `colors[index % 7]`. */
  function ItemColors(names: seq<string>): map<string, string>
    decreases |names|
  {
    if names == [] then map[]
    else ItemColors(names[..|names| - 1])[names[|names| - 1] := Colors[(|names| - 1) % 7]]
  }

  /** Every name gets a colour, and the k-th name gets colour `k % 7` (a
      repeated name would keep the colour of its last position). */
  lemma {:induction false} ItemColorsByPosition(names: seq<string>)
    ensures forall n :: n in ItemColors(names) <==> n in names
    ensures forall k :: 0 <= k < |names| && (forall j :: k < j < |names| ==> names[j] != names[k]) ==>
              ItemColors(names)[names[k]] == Colors[k % 7]
    decreases |names|
  {
    if names != [] {
      var init := names[..|names| - 1];
      ItemColorsByPosition(init);
      assert forall k :: 0 <= k < |init| ==> init[k] == names[k];
      assert names == init + [names[|names| - 1]];
      forall k | 0 <= k < |names| && (forall j :: k < j < |names| ==> names[j] != names[k])
        ensures ItemColors(names)[names[k]] == Colors[k % 7]
      {
        if k < |init| {
          assert forall j :: k < j < |init| ==> init[j] != init[k];
        }
      }
    }
  }

  function TrendNames(trends: seq<Trend>): (r: seq<string>)
    ensures |r| == |trends| && forall i :: 0 <= i < |trends| ==> r[i] == trends[i].itemName
  {
    seq(|trends|, i requires 0 <= i < |trends| => trends[i].itemName)
  }

  /** Trend names are distinct, so the k-th trend's line gets colour `k % 7`. */
  lemma TrendColors(history: seq<HistoryPoint>)
    ensures var trends := StockTrends(history); var colors := ItemColors(TrendNames(trends));
            forall k :: 0 <= k < |trends| ==> trends[k].itemName in colors && colors[trends[k].itemName] == Colors[k % 7]
  {
    GroupIsGrouped(history);
    var names := TrendNames(StockTrends(history));
    assert forall k, j :: 0 <= k < j < |names| ==> names[j] != names[k];
    ItemColorsByPosition(names);
  }

  // ----- Predictions -----

  /** An exact non-negative rational standing for the float `avgDailyUsage`. */
  datatype Ratio = Ratio(num: int, den: int)

  const Zero := Ratio(0, 1)

  datatype Prediction = Prediction(itemName: string, avgDailyUsage: Ratio, daysUntilRestock: Option<int>, currentStock: int)

  /** `slice(-n)`: the last `n` elements, or all of them when there are fewer. */
  function LastN<T>(s: seq<T>, n: nat): (r: seq<T>)
    ensures |r| == if |s| < n then |s| else n
    ensures r == s[|s| - |r|..]
  {
    if |s| <= n then s else s[|s| - n..]
  }

  function Quantities(ps: seq<TrendPoint>): (r: seq<int>)
    ensures |r| == |ps| && forall i :: 0 <= i < |ps| ==> r[i] == ps[i].quantity
  {
    seq(|ps|, i requires 0 <= i < |ps| => ps[i].quantity)
  }

  /** The sum of the strictly positive steps `qs[i] - qs[i + 1]`. */
  function TotalUsage(qs: seq<int>): int
    decreases |qs|
  {
    if |qs| < 2 then 0
    else
      var usage := qs[|qs| - 2] - qs[|qs| - 1];
      TotalUsage(qs[..|qs| - 1]) + (if usage > 0 then usage else 0)
  }

  /** The number of strictly positive steps. */
  function DaysCounted(qs: seq<int>): int
    decreases |qs|
  {
    if |qs| < 2 then 0
    else
      var usage := qs[|qs| - 2] - qs[|qs| - 1];
      DaysCounted(qs[..|qs| - 1]) + (if usage > 0 then 1 else 0)
  }

  /** A step is a decrease of the stock. */
  ghost predicate HasDecrease(qs: seq<int>) {
    exists i :: 0 <= i < |qs| - 1 && qs[i] > qs[i + 1]
  }

  /** Each counted step uses at least one unit; nothing is counted exactly
      when no step is a decrease. */
  lemma {:induction false} UsageBounds(qs: seq<int>)
    ensures 0 <= DaysCounted(qs) <= TotalUsage(qs)
    ensures DaysCounted(qs) > 0 <==> HasDecrease(qs)
    ensures TotalUsage(qs) > 0 <==> HasDecrease(qs)
    decreases |qs|
  {
    if |qs| >= 2 {
      var init := qs[..|qs| - 1];
      UsageBounds(init);
      if HasDecrease(init) {
        var i :| 0 <= i < |init| - 1 && init[i] > init[i + 1];
        assert qs[i] > qs[i + 1];
      }
      if HasDecrease(qs) {
        var i :| 0 <= i < |qs| - 1 && qs[i] > qs[i + 1];
        if i < |qs| - 2 {
          assert init[i] > init[i + 1];
        }
      }
    }
  }

  /** Increases and flat steps are ignored: a stock that never falls shows no usage. */
  lemma NoDecreaseNoUsage(qs: seq<int>)
    requires forall i :: 0 <= i < |qs| - 1 ==> qs[i] <= qs[i + 1]
    ensures TotalUsage(qs) == 0 && DaysCounted(qs) == 0
  {
    UsageBounds(qs);
  }

  /** `Math.floor(a / b)` for a positive `b`: the whole number of times `b` fits in `a`. */
  function Floor(a: int, b: int): (d: int)
    requires b > 0
    ensures d * b <= a < (d + 1) * b
    ensures a >= 0 ==> d >= 0
  {
    a / b
  }

  /** The restock prediction for one trend: the average of the decreases
      among the last seven points and the whole days the current stock
      lasts at that rate. */
  function PredictionOf(t: Trend, stock: map<string, int>): (r: Prediction)
    ensures r.itemName == t.itemName && r.currentStock == CurrentStock(stock, t.itemName)
  {
    var recent := LastN(t.points, 7);
    var currentStock := CurrentStock(stock, t.itemName);
    if |recent| < 2 then
      Prediction(t.itemName, Zero, None, currentStock)
    else
      var qs := Quantities(recent);
      var totalUsage := TotalUsage(qs);
      var daysCounted := DaysCounted(qs);
      var avg := if daysCounted > 0 then Ratio(totalUsage, daysCounted) else Zero;
      var days := if avg.num > 0 then Some(Floor(currentStock * avg.den, avg.num)) else None;
      Prediction(t.itemName, avg, days, currentStock)
  }

  /** The average is a non-negative exact ratio, zero with fewer than two
      points or without a decrease; a restock estimate exists exactly when
      one of the last seven steps is a decrease, and it is the floor of the
      current stock divided by the average. */
  lemma PredictionProperties(t: Trend, stock: map<string, int>)
    ensures var r := PredictionOf(t, stock);
            && r.avgDailyUsage.num >= 0 && r.avgDailyUsage.den > 0
            && (|t.points| < 2 ==> r.avgDailyUsage == Zero && r.daysUntilRestock.None?)
            && (r.avgDailyUsage.num > 0 <==> HasDecrease(Quantities(LastN(t.points, 7))))
            && (r.daysUntilRestock.Some? <==> HasDecrease(Quantities(LastN(t.points, 7))))
            && (r.daysUntilRestock.Some? ==>
                  r.avgDailyUsage.num > 0 &&
                  r.daysUntilRestock.value == Floor(r.currentStock * r.avgDailyUsage.den, r.avgDailyUsage.num))
  {
    var recent := LastN(t.points, 7);
    if |recent| >= 2 {
      UsageBounds(Quantities(recent));
    } else {
      assert !HasDecrease(Quantities(recent));
    }
  }

  /** Only the last seven points count: earlier ones change nothing. */
  lemma OnlyLastSeven(name: string, earlier: seq<TrendPoint>, last: seq<TrendPoint>, stock: map<string, int>)
    requires |last| >= 7
    ensures PredictionOf(Trend(name, earlier + last), stock) == PredictionOf(Trend(name, last), stock)
  {
    assert LastN(earlier + last, 7) == LastN(last, 7);
  }

  /** One more step of the usage loop adds that step's decrease, if any. */
  lemma UsageStep(qs: seq<int>, i: nat)
    requires i + 1 < |qs|
    ensures var usage := qs[i] - qs[i + 1];
            && TotalUsage(qs[..i + 2]) == TotalUsage(qs[..i + 1]) + (if usage > 0 then usage else 0)
            && DaysCounted(qs[..i + 2]) == DaysCounted(qs[..i + 1]) + (if usage > 0 then 1 else 0)
  {
    assert qs[..i + 2][..i + 1] == qs[..i + 1];
  }

  /** The loop over consecutive pairs of the recent points. */
  method SumUsage(recent: seq<TrendPoint>) returns (totalUsage: int, daysCounted: int)
    requires |recent| >= 2
    ensures totalUsage == TotalUsage(Quantities(recent))
    ensures daysCounted == DaysCounted(Quantities(recent))
  {
    ghost var qs := Quantities(recent);
    totalUsage := 0;
    daysCounted := 0;
    var i := 0;
    while i < |recent| - 1
      invariant 0 <= i <= |recent| - 1
      invariant totalUsage == TotalUsage(qs[..i + 1])
      invariant daysCounted == DaysCounted(qs[..i + 1])
    {
      var curr := recent[i];
      var next := recent[i + 1];
      var usage := curr.quantity - next.quantity;
      UsageStep(qs, i);
      if usage > 0 {
        totalUsage := totalUsage + usage;
        daysCounted := daysCounted + 1;
      }
      i := i + 1;
    }
    assert qs[..|recent|] == qs;
  }

  /** The `predictions` callback for one trend. */
  method Predict(t: Trend, stock: map<string, int>) returns (r: Prediction)
    ensures r == PredictionOf(t, stock)
  {
    var recent := LastN(t.points, 7);
    var currentStock := CurrentStock(stock, t.itemName);
    if |recent| < 2 {
      return Prediction(t.itemName, Zero, None, currentStock);
    }
    var totalUsage, daysCounted := SumUsage(recent);
    var avgDailyUsage := if daysCounted > 0 then Ratio(totalUsage, daysCounted) else Zero;
    var daysUntilRestock: Option<int> := None;
    if avgDailyUsage.num > 0 {
      daysUntilRestock := Some(Floor(currentStock * avgDailyUsage.den, avgDailyUsage.num));
    }
    r := Prediction(t.itemName, avgDailyUsage, daysUntilRestock, currentStock);
  }

  // ----- The dashboard's figures -----

  /** `predictions`: one per trend, in the trends' order. */
  function Predictions(trends: seq<Trend>, stock: map<string, int>): (r: seq<Prediction>)
    ensures |r| == |trends| && forall i :: 0 <= i < |trends| ==> r[i] == PredictionOf(trends[i], stock)
    decreases |trends|
  {
    if trends == [] then []
    else Predictions(trends[..|trends| - 1], stock) + [PredictionOf(trends[|trends| - 1], stock)]
  }

  /** One prediction per item name in the history, in the trends' order. */
  lemma PredictionsCoverHistory(history: seq<HistoryPoint>, stock: map<string, int>, name: string)
    ensures var ps := Predictions(StockTrends(history), stock);
            (exists i :: 0 <= i < |ps| && ps[i].itemName == name) <==>
            (exists j :: 0 <= j < |history| && history[j].itemName == name)
  {
    var g := Group(history);
    var trends := StockTrends(history);
    var ps := Predictions(trends, stock);
    GroupNames(history, name);
    assert forall i :: 0 <= i < |trends| ==> trends[i].itemName == g[i].itemName;
    assert forall i :: 0 <= i < |ps| ==> ps[i].itemName == trends[i].itemName;
    NamesFollowBuckets(g, ps, name);
  }

  lemma NamesFollowBuckets(g: seq<Bucket>, ps: seq<Prediction>, name: string)
    requires |ps| == |g| && forall i :: 0 <= i < |g| ==> ps[i].itemName == g[i].itemName
    ensures (exists i :: 0 <= i < |ps| && ps[i].itemName == name) <==> FindBucket(g, name) >= 0
  {
    if exists i :: 0 <= i < |ps| && ps[i].itemName == name {
      var i :| 0 <= i < |ps| && ps[i].itemName == name;
      FindBucketFindsAny(g, name, i);
    }
    if FindBucket(g, name) >= 0 {
      assert ps[FindBucket(g, name)].itemName == name;
    }
  }

  lemma {:induction false} FindBucketFindsAny(buckets: seq<Bucket>, name: string, i: int)
    requires 0 <= i < |buckets| && buckets[i].itemName == name
    ensures FindBucket(buckets, name) >= 0
    decreases |buckets|
  {
    if buckets[|buckets| - 1].itemName != name {
      FindBucketFindsAny(buckets[..|buckets| - 1], name, i);
    }
  }

  lemma PredictionsStep(trends: seq<Trend>, i: nat, stock: map<string, int>)
    requires i < |trends|
    ensures Predictions(trends[..i + 1], stock) == Predictions(trends[..i], stock) + [PredictionOf(trends[i], stock)]
  {
    assert trends[..i + 1][..i] == trends[..i];
  }

  /** The `predictions` map over the trends. */
  method PredictAll(trends: seq<Trend>, stock: map<string, int>) returns (predictions: seq<Prediction>)
    ensures predictions == Predictions(trends, stock)
  {
    predictions := [];
    var i := 0;
    while i < |trends|
      invariant 0 <= i <= |trends|
      invariant predictions == Predictions(trends[..i], stock)
    {
      var p := Predict(trends[i], stock);
      PredictionsStep(trends, i, stock);
      predictions := predictions + [p];
      i := i + 1;
    }
    assert trends[..|trends|] == trends;
  }

  /** The dashboard's computations over the loaded items and history. */
  method Analyze(items: seq<CurrentItem>, history: seq<HistoryPoint>)
    returns (trends: seq<Trend>, colors: map<string, string>, predictions: seq<Prediction>)
    ensures trends == StockTrends(history)
    ensures colors == ItemColors(TrendNames(trends))
    ensures predictions == Predictions(trends, StockMapOf(items))
  {
    var stock := CurrentStockMap(items);
    var buckets := GroupHistory(history);
    trends := seq(|buckets|, i requires 0 <= i < |buckets| => TrendOf(buckets[i]));
    colors := ItemColors(TrendNames(trends));
    predictions := PredictAll(trends, stock);
  }
}
