/**
 * The column operations the backtest and the strategy apply to price data:
 * joining per-asset close columns on the union of their dates, sorting the
 * index, forward-filling, keeping the rows from a start date on, percentage
 * change, cumulative product, the n-day return and the row-wise arg-max.
 * Each is a pure function; the lemmas beside it state what it means.
 */
module Frames {
  import opened Wrappers

  /** A trading day; any integer encoding that orders like the calendar (yyyymmdd). */
  type Date = int
  type AssetKey = string

  /** One asset's close column: a value per date, `None` for a NaN cell. */
  type Series = map<Date, Option<real>>

  /** One loaded asset frame; `close` is `None` when the frame has no close column. */
  datatype Frame = Frame(close: Option<Series>)

  /** The loaded data, asset key to frame. */
  type DataMap = map<AssetKey, Frame>

  type Column = seq<Option<real>>

  /** A frame of aligned columns sharing one date index. */
  datatype Table = Table(index: seq<Date>, cols: map<AssetKey, Column>)

  predicate Rectangular(tbl: Table) {
    forall k :: k in tbl.cols ==> |tbl.cols[k]| == |tbl.index|
  }

  predicate StrictlyIncreasing(xs: seq<Date>) {
    forall i, j :: 0 <= i < j < |xs| ==> xs[i] < xs[j]
  }

  predicate PositiveSeries(s: Series) {
    forall d :: d in s && s[d].Some? ==> s[d].value > 0.0
  }

  /** Every close that was observed is a positive price. */
  predicate PositiveCloses(dm: DataMap) {
    forall k :: k in dm && dm[k].close.Some? ==> PositiveSeries(dm[k].close.value)
  }

  predicate PositiveColumn(c: Column) {
    forall t :: 0 <= t < |c| && c[t].Some? ==> c[t].value > 0.0
  }

  predicate PositiveTable(tbl: Table) {
    forall k :: k in tbl.cols ==> PositiveColumn(tbl.cols[k])
  }

  // ---------------------------------------------------------------------------
  // Ordered date sets
  // ---------------------------------------------------------------------------

  lemma EmptyIfNoElement(s: set<Date>)
    ensures (forall y :: y !in s) ==> s == {}
  {
    if forall y :: y !in s {
      assert forall y :: y in s <==> y in {};
    }
  }

  lemma {:induction false} MinExists(s: set<Date>)
    requires s != {}
    ensures exists m :: m in s && forall x :: x in s ==> m <= x
    decreases |s|
  {
    EmptyIfNoElement(s);
    var y :| y in s;
    var r := s - {y};
    if r == {} {
      assert forall x :: x in s ==> x == y by {
        forall x | x in s ensures x == y {
          assert x !in r;
        }
      }
    } else {
      MinExists(r);
      var m :| m in r && forall x :: x in r ==> m <= x;
      var w := if y < m then y else m;
      assert forall x :: x in s ==> w <= x by {
        forall x | x in s ensures w <= x {
          if x != y { assert x in r; }
        }
      }
    }
  }

  lemma {:induction false} MaxExists(s: set<Date>)
    requires s != {}
    ensures exists m :: m in s && forall x :: x in s ==> x <= m
    decreases |s|
  {
    EmptyIfNoElement(s);
    var y :| y in s;
    var r := s - {y};
    if r == {} {
      assert forall x :: x in s ==> x == y by {
        forall x | x in s ensures x == y {
          assert x !in r;
        }
      }
    } else {
      MaxExists(r);
      var m :| m in r && forall x :: x in r ==> x <= m;
      var w := if y > m then y else m;
      assert forall x :: x in s ==> x <= w by {
        forall x | x in s ensures x <= w {
          if x != y { assert x in r; }
        }
      }
    }
  }

  /** The earliest date of a non-empty set. */
  function SetMin(s: set<Date>): (m: Date)
    requires s != {}
    ensures m in s && forall x :: x in s ==> m <= x
  {
    MinExists(s);
    var m :| m in s && forall x :: x in s ==> m <= x; m
  }

  /** The latest date of a non-empty set. */
  function SetMax(s: set<Date>): (m: Date)
    requires s != {}
    ensures m in s && forall x :: x in s ==> x <= m
  {
    MaxExists(s);
    var m :| m in s && forall x :: x in s ==> x <= m; m
  }

  /** `sort_index` of a unique index: the dates of `s` in ascending order. */
  function SortedSeq(s: set<Date>): (r: seq<Date>)
    ensures StrictlyIncreasing(r)
    ensures forall x :: x in r <==> x in s
    decreases |s|
  {
    if s == {} then []
    else
      var m := SetMin(s);
      [m] + SortedSeq(s - {m})
  }

  /** Two ascending sequences with the same elements are the same sequence. */
  lemma {:induction false} SortedUnique(a: seq<Date>, b: seq<Date>)
    requires StrictlyIncreasing(a) && StrictlyIncreasing(b)
    requires forall x :: x in a <==> x in b
    ensures a == b
  {
    if a == [] {
      assert forall j :: 0 <= j < |b| ==> b[j] !in a;
      assert |b| == 0;
    } else {
      assert a[0] in a;
      assert b != [] by { assert a[0] in b; }
      assert b[0] in b;
      assert a[0] == b[0] by {
        assert a[0] in b;
        assert b[0] in a;
      }
      forall x ensures x in a[1..] <==> x in b[1..] {
        if x in a[1..] {
          var i :| 1 <= i < |a| && a[i] == x;
          assert x in b;
          var j :| 0 <= j < |b| && b[j] == x;
          assert j != 0;
          assert b[1..][j - 1] == x;
        }
        if x in b[1..] {
          var j :| 1 <= j < |b| && b[j] == x;
          assert x in a;
          var i :| 0 <= i < |a| && a[i] == x;
          assert i != 0;
          assert a[1..][i - 1] == x;
        }
      }
      SortedUnique(a[1..], b[1..]);
      assert a == [a[0]] + a[1..];
      assert b == [b[0]] + b[1..];
    }
  }

  /** The dates of `xs` that lie before `d`, when `d` is one of them, come first. */
  lemma PrefixBelow(xs: seq<Date>, i: nat, d: Date)
    requires StrictlyIncreasing(xs)
    requires i < |xs| && xs[i] == d
    ensures StrictlyIncreasing(xs[..i])
    ensures forall x :: x in xs[..i] <==> x in xs && x < d
  {
    forall x | x in xs && x < d ensures x in xs[..i] {
      var j :| 0 <= j < |xs| && xs[j] == x;
      assert j < i;
      assert xs[..i][j] == x;
    }
  }

  /**
   * Two ascending calendars that contain `d` and agree on every date before
   * `d` have `d` at the same position and the same dates before it.
   */
  lemma SameDatesBefore(xs: seq<Date>, ys: seq<Date>, d: Date) returns (i: nat)
    requires StrictlyIncreasing(xs) && StrictlyIncreasing(ys)
    requires d in xs && d in ys
    requires forall x :: x < d ==> (x in xs <==> x in ys)
    ensures i < |xs| && i < |ys| && xs[i] == d && ys[i] == d
    ensures xs[..i] == ys[..i]
  {
    var i1 :| 0 <= i1 < |xs| && xs[i1] == d;
    var i2 :| 0 <= i2 < |ys| && ys[i2] == d;
    PrefixBelow(xs, i1, d);
    PrefixBelow(ys, i2, d);
    SortedUnique(xs[..i1], ys[..i2]);
    assert |xs[..i1]| == i1 && |ys[..i2]| == i2;
    i := i1;
  }

  /** `Index.get_loc`: the first position of `d` in `xs`. */
  function IndexOf(xs: seq<Date>, d: Date): (r: Option<nat>)
    ensures r.None? <==> d !in xs
    ensures r.Some? ==> r.value < |xs| && xs[r.value] == d && d !in xs[..r.value]
  {
    if xs == [] then None
    else if xs[0] == d then Some(0)
    else
      match IndexOf(xs[1..], d)
      case None => None
      case Some(j) =>
        assert xs[..j + 1] == [xs[0]] + xs[1..][..j];
        Some(j + 1)
  }

  /** In an ascending index, the position of a date is where it stands. */
  lemma IndexOfSorted(xs: seq<Date>, i: nat)
    requires StrictlyIncreasing(xs) && i < |xs|
    ensures IndexOf(xs, xs[i]) == Some(i)
  {
    var r := IndexOf(xs, xs[i]).value;
    assert forall j :: 0 <= j < r ==> xs[..r][j] == xs[j];
  }

  // ---------------------------------------------------------------------------
  // Concatenating close columns, sorting and forward-filling
  // ---------------------------------------------------------------------------

  /** The assets whose frame has a close column (`'close' in df.columns`). */
  function AssetsWithClose(dm: DataMap): set<AssetKey> {
    set k | k in dm && dm[k].close.Some?
  }

  /** The close columns of the frames that have one. */
  function ClosesOf(dm: DataMap): map<AssetKey, Series>
  {
    map k | k in dm && dm[k].close.Some? :: dm[k].close.value
  }

  /**
   * The loop that visits every loaded frame, keeps the close column of each
   * frame that has one and skips the others.
   */
  method CollectCloses(dm: DataMap) returns (dfs: map<AssetKey, Series>)
    ensures dfs.Keys == set k | k in dm && dm[k].close.Some?
    ensures forall k :: k in dfs ==> dm[k].close == Some(dfs[k])
    ensures dfs == ClosesOf(dm)
  {
    dfs := map[];
    var todo := dm.Keys;
    while todo != {}
      invariant todo <= dm.Keys
      invariant dfs.Keys == set k | k in dm && k !in todo && dm[k].close.Some?
      invariant forall k :: k in dfs ==> dm[k].close == Some(dfs[k])
      decreases todo
    {
      var k :| k in todo;
      if dm[k].close.Some? {
        dfs := dfs[k := dm[k].close.value];
      }
      todo := todo - {k};
    }
  }

  /** Every date that any of the close columns has a row for. */
  function UnionDates(dfs: map<AssetKey, Series>): set<Date> {
    set k, d | k in dfs && d in dfs[k] :: d
  }

  /** The value a close column contributes at date `d` of the outer join (NaN when absent). */
  function Cell(s: Series, d: Date): Option<real> {
    if d in s then s[d] else None
  }

  /** A close column reindexed onto the joint index. */
  function Reindex(s: Series, index: seq<Date>): (c: Column)
    ensures |c| == |index|
    ensures forall t :: 0 <= t < |index| ==> c[t] == Cell(s, index[t])
  {
    seq(|index|, t requires 0 <= t < |index| => Cell(s, index[t]))
  }

  /** The last non-NaN value of a column prefix, which `ffill` writes in its last cell. */
  function LastValid(c: Column): Option<real>
  {
    if c == [] then None
    else if c[|c| - 1].Some? then c[|c| - 1]
    else LastValid(c[..|c| - 1])
  }

  /** `ffill`: each cell becomes the last non-NaN value at or above it. */
  function FFill(c: Column): (r: Column)
    ensures |r| == |c|
  {
    seq(|c|, t requires 0 <= t < |c| => LastValid(c[..t + 1]))
  }

  /**
   * Reference definition of a forward-filled cell: the close observed
   * (non-NaN) at the latest date on or before `d`, if there is one.
   */
  function LatestClose(s: Series, d: Date): Option<real>
  {
    var seen := set k | k in s && k <= d && s[k].Some?;
    if seen == {} then None else s[SetMax(seen)]
  }

  /** `pd.concat(dfs, axis=1).sort_index().ffill()`. */
  function Align(dfs: map<AssetKey, Series>): (tbl: Table)
    ensures Rectangular(tbl)
    ensures tbl.cols.Keys == dfs.Keys
  {
    var index := SortedSeq(UnionDates(dfs));
    Table(index, map k | k in dfs :: FFill(Reindex(dfs[k], index)))
  }

  /** The latest close on or before `d` reads nothing after `d`. */
  lemma LatestCloseBefore(s1: Series, s2: Series, d: Date)
    requires forall x :: x <= d ==> (x in s1 <==> x in s2)
    requires forall x :: x <= d && x in s1 ==> s1[x] == s2[x]
    ensures LatestClose(s1, d) == LatestClose(s2, d)
  {
    var seen1 := set k | k in s1 && k <= d && s1[k].Some?;
    var seen2 := set k | k in s2 && k <= d && s2[k].Some?;
    assert seen1 == seen2;
  }

  /**
   * Forward-filling the reindexed column gives, at each date, the latest close
   * observed on or before that date, as long as the index holds every date of
   * the column.
   */
  lemma {:induction false} FFillIsLatestClose(s: Series, index: seq<Date>, t: nat)
    requires StrictlyIncreasing(index)
    requires forall d :: d in s ==> d in index
    requires t < |index|
    ensures FFill(Reindex(s, index))[t] == LatestClose(s, index[t])
  {
    var c := Reindex(s, index);
    var p := c[..t + 1];
    assert p[|p| - 1] == c[t];
    var seen := set k | k in s && k <= index[t] && s[k].Some?;
    if c[t].Some? {
      assert index[t] in seen;
      assert SetMax(seen) == index[t];
    } else if t == 0 {
      assert p[..|p| - 1] == [];
      assert LastValid(p) == None;
      forall k | k in seen ensures k == index[0] {
        assert k in index;
      }
      assert index[0] !in seen;
      EmptyIfNoElement(seen);
      assert seen == {};
    } else {
      assert p[..|p| - 1] == c[..t];
      FFillIsLatestClose(s, index, t - 1);
      var before := set k | k in s && k <= index[t - 1] && s[k].Some?;
      forall k | k in seen ensures k in before {
        var j :| 0 <= j < |index| && index[j] == k;
        assert j <= t;
        assert j != t;
      }
      assert seen == before;
    }
  }

  /** What `Align` promises: an ascending index of every date, and each cell the latest close. */
  lemma AlignSpec(dfs: map<AssetKey, Series>)
    ensures StrictlyIncreasing(Align(dfs).index)
    ensures forall d :: d in Align(dfs).index <==> d in UnionDates(dfs)
    ensures forall k, t :: k in dfs && 0 <= t < |Align(dfs).index| ==>
              Align(dfs).cols[k][t] == LatestClose(dfs[k], Align(dfs).index[t])
  {
    var tbl := Align(dfs);
    forall k, t | k in dfs && 0 <= t < |tbl.index|
      ensures tbl.cols[k][t] == LatestClose(dfs[k], tbl.index[t])
    {
      forall d | d in dfs[k] ensures d in tbl.index {
        assert d in UnionDates(dfs);
      }
      FFillIsLatestClose(dfs[k], tbl.index, t);
    }
  }

  lemma {:induction false} LastValidFrom(c: Column)
    ensures LastValid(c).Some? ==> exists j :: 0 <= j < |c| && c[j] == LastValid(c)
  {
    if c != [] && c[|c| - 1].None? {
      var init := c[..|c| - 1];
      LastValidFrom(init);
      if LastValid(init).Some? {
        var j :| 0 <= j < |init| && init[j] == LastValid(init);
        assert c[j] == init[j];
      }
    }
  }

  /** Aligning positive close columns gives positive cells only. */
  lemma AlignPositive(dfs: map<AssetKey, Series>)
    requires forall k :: k in dfs ==> PositiveSeries(dfs[k])
    ensures PositiveTable(Align(dfs))
  {
    var tbl := Align(dfs);
    forall k, t | k in tbl.cols && 0 <= t < |tbl.cols[k]| && tbl.cols[k][t].Some?
      ensures tbl.cols[k][t].value > 0.0
    {
      var c := Reindex(dfs[k], tbl.index);
      LastValidFrom(c[..t + 1]);
      var j :| 0 <= j < t + 1 && c[..t + 1][j] == tbl.cols[k][t];
      assert c[j] == Cell(dfs[k], tbl.index[j]);
    }
  }

  lemma ClosesPositive(dm: DataMap)
    requires PositiveCloses(dm)
    ensures forall k :: k in ClosesOf(dm) ==> PositiveSeries(ClosesOf(dm)[k])
  {
  }

  // ---------------------------------------------------------------------------
  // Keeping the rows from the start date on
  // ---------------------------------------------------------------------------

  /** Boolean-mask row selection. */
  function Mask<T>(xs: seq<T>, keep: seq<bool>): (r: seq<T>)
    requires |keep| == |xs|
    ensures |r| <= |xs|
  {
    if xs == [] then []
    else (if keep[0] then [xs[0]] else []) + Mask(xs[1..], keep[1..])
  }

  /** `combined[combined.index >= start]`. */
  function FilterFrom(tbl: Table, start: Date): Table
    requires Rectangular(tbl)
  {
    var keep := seq(|tbl.index|, i requires 0 <= i < |tbl.index| => tbl.index[i] >= start);
    Table(Mask(tbl.index, keep), map k | k in tbl.cols :: Mask(tbl.cols[k], keep))
  }

  /** The number of leading dates before `start`. */
  function CountBefore(xs: seq<Date>, start: Date): (k: nat)
    ensures k <= |xs|
  {
    if xs == [] || xs[0] >= start then 0 else 1 + CountBefore(xs[1..], start)
  }

  lemma {:induction false} CountBeforeSorted(xs: seq<Date>, start: Date)
    requires StrictlyIncreasing(xs)
    ensures forall i :: 0 <= i < |xs| ==> (xs[i] >= start <==> i >= CountBefore(xs, start))
  {
    if xs != [] && xs[0] < start {
      CountBeforeSorted(xs[1..], start);
      forall i | 1 <= i < |xs| ensures xs[i] == xs[1..][i - 1] { }
    }
  }

  lemma {:induction false} MaskSuffix<T>(xs: seq<T>, keep: seq<bool>, k: nat)
    requires |keep| == |xs| && k <= |xs|
    requires forall i :: 0 <= i < |xs| ==> keep[i] == (i >= k)
    ensures Mask(xs, keep) == xs[k..]
  {
    if xs != [] {
      if k == 0 {
        MaskSuffix(xs[1..], keep[1..], 0);
      } else {
        MaskSuffix(xs[1..], keep[1..], k - 1);
      }
    }
  }

  /** On an ascending index the date filter drops exactly the leading rows before `start`. */
  lemma FilterFromIsSuffix(tbl: Table, start: Date)
    requires Rectangular(tbl) && StrictlyIncreasing(tbl.index)
    ensures FilterFrom(tbl, start).index == tbl.index[CountBefore(tbl.index, start)..]
    ensures FilterFrom(tbl, start).cols.Keys == tbl.cols.Keys
    ensures forall k :: k in tbl.cols ==>
              FilterFrom(tbl, start).cols[k] == tbl.cols[k][CountBefore(tbl.index, start)..]
  {
    var n := CountBefore(tbl.index, start);
    var keep := seq(|tbl.index|, i requires 0 <= i < |tbl.index| => tbl.index[i] >= start);
    CountBeforeSorted(tbl.index, start);
    MaskSuffix(tbl.index, keep, n);
    forall k | k in tbl.cols ensures Mask(tbl.cols[k], keep) == tbl.cols[k][n..] {
      MaskSuffix(tbl.cols[k], keep, n);
    }
  }

  /**
   * On an ascending table the date filter keeps an ascending index of exactly
   * the dates from `start` on, each row unchanged.
   */
  lemma FilterFromSpec(tbl: Table, start: Date)
    requires Rectangular(tbl) && StrictlyIncreasing(tbl.index)
    ensures var f, n := FilterFrom(tbl, start), CountBefore(tbl.index, start);
      && Rectangular(f)
      && StrictlyIncreasing(f.index)
      && f.cols.Keys == tbl.cols.Keys
      && (forall d :: d in f.index <==> d in tbl.index && d >= start)
      && |f.index| == |tbl.index| - n
      && (forall t :: 0 <= t < |f.index| ==> f.index[t] == tbl.index[n + t])
      && (forall k, t :: k in f.cols && 0 <= t < |f.index| ==> f.cols[k][t] == tbl.cols[k][n + t])
  {
    FilterFromIsSuffix(tbl, start);
    CountBeforeSorted(tbl.index, start);
    var f, n := FilterFrom(tbl, start), CountBefore(tbl.index, start);
    forall d ensures d in f.index <==> d in tbl.index && d >= start {
      if d in tbl.index && d >= start {
        var i :| 0 <= i < |tbl.index| && tbl.index[i] == d;
        assert tbl.index[n..][i - n] == d;
      }
    }
  }

  /** Dropping leading rows keeps a table positive. */
  lemma FilterFromPositive(tbl: Table, start: Date)
    requires Rectangular(tbl) && StrictlyIncreasing(tbl.index) && PositiveTable(tbl)
    ensures Rectangular(FilterFrom(tbl, start)) && PositiveTable(FilterFrom(tbl, start))
  {
    FilterFromIsSuffix(tbl, start);
    var n := CountBefore(tbl.index, start);
    forall k | k in tbl.cols ensures PositiveColumn(tbl.cols[k][n..]) {
      forall t | 0 <= t < |tbl.cols[k][n..]| ensures tbl.cols[k][n..][t] == tbl.cols[k][n + t] { }
    }
  }

  // ---------------------------------------------------------------------------
  // Daily returns, wealth index and n-day returns
  // ---------------------------------------------------------------------------

  /** One cell of `pct_change().fillna(0)`: NaN when either close is NaN, then 0. */
  function DailyReturn(prev: Option<real>, cur: Option<real>): real
    requires prev.Some? ==> prev.value > 0.0
  {
    if prev.Some? && cur.Some? then cur.value / prev.value - 1.0 else 0.0
  }

  /** `pct_change().fillna(0)` on one column; the first row has no predecessor and gets 0. */
  function PctChange(c: Column): (r: seq<real>)
    requires PositiveColumn(c)
    ensures |r| == |c|
  {
    seq(|c|, t requires 0 <= t < |c| => if t == 0 then 0.0 else DailyReturn(c[t - 1], c[t]))
  }

  /** The daily return of each asset column. */
  function TableReturns(tbl: Table): (rets: map<AssetKey, seq<real>>)
    requires PositiveTable(tbl)
    ensures rets.Keys == tbl.cols.Keys
    ensures forall k :: k in rets ==> |rets[k]| == |tbl.cols[k]|
  {
    map k | k in tbl.cols :: PctChange(tbl.cols[k])
  }

  /**
   * A daily return undoes itself: on a day where both closes are known, the
   * close is the previous close grown by the return; a positive price path
   * never loses all, so every return exceeds -1.
   */
  lemma PctChangeRoundTrip(c: Column, t: nat)
    requires PositiveColumn(c) && t < |c|
    ensures PctChange(c)[t] > -1.0
    ensures t == 0 || c[t - 1].None? || c[t].None? ==> PctChange(c)[t] == 0.0
    ensures t > 0 && c[t - 1].Some? && c[t].Some? ==>
              c[t].value == c[t - 1].value * (1.0 + PctChange(c)[t])
  {
    if t > 0 && c[t - 1].Some? && c[t].Some? {
      var p, q := c[t - 1].value, c[t].value;
      assert q / p > 0.0;
      calc {
        p * (1.0 + (q / p - 1.0));
        p * (q / p);
        q;
      }
    }
  }

  /** `(1 + r).prod()`: the growth of one unit over the returns `r`. */
  function Growth(r: seq<real>): real
  {
    if r == [] then 1.0 else Growth(r[..|r| - 1]) * (1.0 + r[|r| - 1])
  }

  /** `(1 + r).cumprod()`: the wealth after each day. */
  function WealthIndex(r: seq<real>): (w: seq<real>)
    ensures |w| == |r|
  {
    seq(|r|, t requires 0 <= t < |r| => Growth(r[..t + 1]))
  }

  lemma {:induction false} GrowthAppend(a: seq<real>, b: seq<real>)
    ensures Growth(a + b) == Growth(a) * Growth(b)
    decreases |b|
  {
    if b == [] {
      assert a + b == a;
    } else {
      var b' := b[..|b| - 1];
      assert (a + b)[..|a + b| - 1] == a + b';
      GrowthAppend(a, b');
    }
  }

  predicate AboveMinusOne(r: seq<real>) {
    forall t :: 0 <= t < |r| ==> r[t] > -1.0
  }

  lemma MulPositive(a: real, b: real)
    requires a > 0.0 && b > 0.0
    ensures a * b > 0.0
  {
  }

  lemma {:induction false} GrowthPositive(r: seq<real>)
    requires AboveMinusOne(r)
    ensures Growth(r) > 0.0
  {
    if r != [] {
      var init := r[..|r| - 1];
      assert AboveMinusOne(init) by {
        forall t | 0 <= t < |init| ensures init[t] > -1.0 { assert init[t] == r[t]; }
      }
      GrowthPositive(init);
      MulPositive(Growth(init), 1.0 + r[|r| - 1]);
    }
  }

  /** The wealth index up to a day reads the returns up to that day and no later. */
  lemma WealthPrefix(r1: seq<real>, r2: seq<real>, i: nat)
    requires i <= |r1| && i <= |r2| && r1[..i] == r2[..i]
    ensures WealthIndex(r1)[..i] == WealthIndex(r2)[..i]
  {
    forall t | 0 <= t < i ensures WealthIndex(r1)[t] == WealthIndex(r2)[t] {
      assert r1[..t + 1] == r1[..i][..t + 1];
      assert r2[..t + 1] == r2[..i][..t + 1];
    }
  }

  /** Wealth stays positive while every daily return exceeds -1. */
  lemma WealthPositive(r: seq<real>)
    requires AboveMinusOne(r)
    ensures forall t :: 0 <= t < |r| ==> WealthIndex(r)[t] > 0.0
  {
    forall t | 0 <= t < |r| ensures WealthIndex(r)[t] > 0.0 {
      assert AboveMinusOne(r[..t + 1]);
      GrowthPositive(r[..t + 1]);
    }
  }

  /** The wealth index compounds: it starts at `1 + r[0]` and grows by `1 + r[t]` each day. */
  lemma WealthRecurrence(r: seq<real>, t: nat)
    requires t < |r|
    ensures t == 0 ==> WealthIndex(r)[0] == 1.0 + r[0]
    ensures t > 0 ==> WealthIndex(r)[t] == WealthIndex(r)[t - 1] * (1.0 + r[t])
  {
    var p := r[..t + 1];
    assert p[|p| - 1] == r[t];
    assert Growth(p) == Growth(p[..|p| - 1]) * (1.0 + r[t]);
    if t == 0 {
      assert p[..|p| - 1] == [];
    } else {
      assert p[..|p| - 1] == r[..t];
    }
  }

  /** `w` is the wealth of `r` from 1: it starts at 1 and grows by `1 + r[t]` each day. */
  predicate Compounds(w: seq<real>, r: seq<real>) {
    && |w| == |r| && |w| > 0 && w[0] == 1.0
    && forall t {:trigger r[t]} :: 1 <= t < |w| ==> w[t] == w[t - 1] * (1.0 + r[t])
  }

  /** A return series whose first day is flat has a wealth index that starts at 1 and compounds. */
  lemma WealthFromFlatStart(r: seq<real>)
    requires |r| > 0 && r[0] == 0.0
    ensures Compounds(WealthIndex(r), r)
  {
    WealthRecurrence(r, 0);
    forall t | 1 <= t < |r| ensures WealthIndex(r)[t] == WealthIndex(r)[t - 1] * (1.0 + r[t]) {
      WealthRecurrence(r, t);
    }
  }

  /** `W / W.shift(n) - 1`; NaN for the first `n` rows, and 0/0 = NaN once the wealth is 0. */
  function NDayReturns(w: seq<real>, n: nat): (r: seq<Option<real>>)
    ensures |r| == |w|
  {
    seq(|w|, t requires 0 <= t < |w| =>
      if t < n || w[t - n] == 0.0 then None else Some(w[t] / w[t - n] - 1.0))
  }

  /**
   * On a wealth index the n-day return is the compounded return of the last
   * `n` days, and a zero base means zero wealth on the day itself too (the
   * case pandas computes as 0/0).
   */
  lemma NDayIsWindowGrowth(r: seq<real>, n: nat, t: nat)
    requires n <= t < |r|
    ensures WealthIndex(r)[t] == WealthIndex(r)[t - n] * Growth(r[t - n + 1..t + 1])
    ensures WealthIndex(r)[t - n] == 0.0 ==> WealthIndex(r)[t] == 0.0
    ensures WealthIndex(r)[t - n] != 0.0 ==>
              NDayReturns(WealthIndex(r), n)[t] == Some(Growth(r[t - n + 1..t + 1]) - 1.0)
  {
    var a, b := r[..t - n + 1], r[t - n + 1..t + 1];
    assert a + b == r[..t + 1];
    GrowthAppend(a, b);
    var w := WealthIndex(r);
    assert w[t] == w[t - n] * Growth(b);
    if w[t - n] != 0.0 {
      assert w[t] / w[t - n] == Growth(b);
    }
  }

  /** The n-day return is defined from row `n` on whenever every daily return exceeds -1. */
  lemma NDayDefined(r: seq<real>, n: nat, t: nat)
    requires AboveMinusOne(r) && t < |r|
    ensures NDayReturns(WealthIndex(r), n)[t].Some? <==> t >= n
  {
    if t >= n {
      assert AboveMinusOne(r[..t - n + 1]);
      GrowthPositive(r[..t - n + 1]);
    }
  }

  // ---------------------------------------------------------------------------
  // Row-wise arg-max (`idxmax(axis=1)`, NaN skipped)
  // ---------------------------------------------------------------------------

  /** The position of the first largest defined value. */
  function ArgMaxPos(vals: seq<Option<real>>): (r: Option<nat>)
    ensures r.Some? ==> r.value < |vals| && vals[r.value].Some?
  {
    if vals == [] then None
    else
      var prev := ArgMaxPos(vals[..|vals| - 1]);
      var last := vals[|vals| - 1];
      if last.None? then prev
      else if prev.None? || last.value > vals[prev.value].value then Some(|vals| - 1)
      else prev
  }

  /** `k` holds a defined value that no value beats and that every earlier value falls short of. */
  predicate IsFirstMax(vals: seq<Option<real>>, k: nat) {
    && k < |vals| && vals[k].Some?
    && (forall j :: 0 <= j < |vals| && vals[j].Some? ==> vals[j].value <= vals[k].value)
    && (forall j :: 0 <= j < k && vals[j].Some? ==> vals[j].value < vals[k].value)
  }

  lemma {:induction false} ArgMaxPosSpec(vals: seq<Option<real>>)
    ensures ArgMaxPos(vals).None? <==> forall j :: 0 <= j < |vals| ==> vals[j].None?
    ensures ArgMaxPos(vals).Some? ==> IsFirstMax(vals, ArgMaxPos(vals).value)
  {
    if vals != [] {
      var init := vals[..|vals| - 1];
      ArgMaxPosSpec(init);
      assert forall j :: 0 <= j < |init| ==> init[j] == vals[j];
    }
  }

  /** `idxmax(axis=1)` on one row: the label of the first largest defined value, NaN if none. */
  function IdxMax<K>(labels: seq<K>, vals: seq<Option<real>>): (r: Option<K>)
    requires |labels| == |vals|
    ensures r.None? <==> forall j :: 0 <= j < |vals| ==> vals[j].None?
    ensures r.Some? ==> exists k: nat :: IsFirstMax(vals, k) && k < |labels| && labels[k] == r.value
  {
    ArgMaxPosSpec(vals);
    match ArgMaxPos(vals)
    case None => None
    case Some(k) => Some(labels[k])
  }
}
