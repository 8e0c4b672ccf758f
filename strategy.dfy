/**
 * The momentum strategy object: on new data it recomputes each portfolio's
 * wealth curve, its n-day momentum and the daily signal naming the
 * portfolio with the best momentum; asked for target weights on a date, it
 * answers with the weights of the portfolio signalled the day before.
 */
module Strategy {
  import opened Wrappers
  import opened Frames
  import opened Portfolios
  import Config

  /** The signal series: a date index and, per date, the chosen portfolio key (NaN as `None`). */
  datatype Signals = Signals(index: seq<Date>, values: seq<Option<PortKey>>)

  // ---------------------------------------------------------------------------
  // The signal as a function of the loaded data
  // ---------------------------------------------------------------------------

  /** A forward-filled price table with positive closes. */
  predicate PriceTable(prices: Table) {
    Rectangular(prices) && PositiveTable(prices)
  }

  /** `pd.concat(dfs, axis=1).sort_index().ffill()`, over every loaded date. */
  function Prices(dm: DataMap): (tbl: Table)
    requires PositiveCloses(dm)
    ensures PriceTable(tbl) && tbl.cols.Keys == ClosesOf(dm).Keys
  {
    ClosesPositive(dm);
    AlignPositive(ClosesOf(dm));
    Align(ClosesOf(dm))
  }

  /** `prices.pct_change().fillna(0)`. */
  function ReturnsOf(prices: Table): (rets: Returns)
    requires PriceTable(prices)
    ensures rets.Keys == prices.cols.Keys
    ensures Rect(rets, |prices.index|)
  {
    TableReturns(prices)
  }

  /**
   * One return column per configured portfolio, in order; here a portfolio
   * none of whose assets has data still gets a column, of zeros.
   */
  function AllReturns(rets: Returns, ps: seq<NamedPortfolio>, len: nat): (cs: seq<PortColumn>)
    requires Rect(rets, len)
    ensures |cs| == |ps| && Columns(cs, len) && ColumnKeys(cs) == Keys(ps)
  {
    seq(|ps|, j requires 0 <= j < |ps| => PortColumn(ps[j].key, PortfolioReturn(rets, ps[j].portfolio.assets, len)))
  }

  /** The portfolio return columns of a price table. */
  function PortfolioColumns(prices: Table, ps: seq<NamedPortfolio>): (cs: seq<PortColumn>)
    requires PriceTable(prices)
    ensures |cs| == |ps| && Columns(cs, |prices.index|) && ColumnKeys(cs) == Keys(ps)
  {
    AllReturns(ReturnsOf(prices), ps, |prices.index|)
  }

  /** `(1 + p_ret).cumprod()` for every column. */
  function Wealths(cs: seq<PortColumn>): (ws: seq<PortColumn>)
    ensures |ws| == |cs|
  {
    seq(|cs|, j requires 0 <= j < |cs| => PortColumn(cs[j].key, WealthIndex(cs[j].series)))
  }

  /** `port_wealth / port_wealth.shift(n) - 1`, column by column. */
  function PastN(ws: seq<PortColumn>, n: nat): (m: seq<seq<Option<real>>>)
    ensures |m| == |ws|
  {
    seq(|ws|, j requires 0 <= j < |ws| => NDayReturns(ws[j].series, n))
  }

  /** The signals of a price table. */
  function SignalsFrom(prices: Table, ps: seq<NamedPortfolio>, n: nat): (s: Signals)
    requires PriceTable(prices)
    ensures |s.values| == |s.index| && s.index == prices.index
  {
    Signals(prices.index, Signal(PortfolioColumns(prices, ps), n, |prices.index|))
  }

  /** The signals computed from a data map. */
  function SignalsOf(dm: DataMap, ps: seq<NamedPortfolio>, n: nat): (s: Signals)
    requires PositiveCloses(dm)
    ensures |s.values| == |s.index| && s.index == Prices(dm).index
  {
    SignalsFrom(Prices(dm), ps, n)
  }

  /**
   * `get_target_weights` on given signals: the assets of the portfolio
   * signalled on the day before `date`; nothing on an unknown date, on the
   * first date, when that signal is NaN or names no configured portfolio.
   */
  function WeightsFor(sig: Signals, ps: seq<NamedPortfolio>, date: Date): (w: seq<Holding>)
    requires |sig.values| == |sig.index|
    ensures w == [] || exists j :: 0 <= j < |ps| && w == ps[j].portfolio.assets
    ensures AllAdmissible(ps) ==> LongOnly(w) && TotalWeight(w) <= 1.0
  {
    match IndexOf(sig.index, date)
    case None => []
    case Some(loc) =>
      if loc == 0 then []
      else
        match sig.values[loc - 1]
        case None => []
        case Some(key) =>
          match Lookup(ps, key)
          case None => []
          case Some(p) => p.assets
  }

  // ---------------------------------------------------------------------------
  // The strategy object
  // ---------------------------------------------------------------------------

  class MomentumStrategy {
    const portfolios: seq<NamedPortfolio>
    const n: nat
    var dataMap: Option<DataMap>
    var dates: Option<seq<Date>>
    var portWealth: seq<PortColumn>
    var pastNReturns: seq<seq<Option<real>>>
    var signals: Option<Signals>

    predicate Valid()
      reads this
    {
      signals.Some? ==> |signals.value.values| == |signals.value.index|
    }

    /** `MomentumStrategy(portfolios, n)`: no data and no signals yet. */
    constructor(portfolios: seq<NamedPortfolio>, n: nat := 20)
      ensures Valid()
      ensures this.portfolios == portfolios && this.n == n
      ensures dataMap == None && dates == None && signals == None
      ensures portWealth == [] && pastNReturns == []
    {
      this.portfolios := portfolios;
      this.n := n;
      dataMap := None;
      dates := None;
      portWealth := [];
      pastNReturns := [];
      signals := None;
    }

    /**
     * `set_data`: store the data and recompute. Without any close column the
     * previous wealth curves, momentum and signals are kept.
     */
    method SetData(dm: DataMap, runDates: seq<Date>)
      requires Valid() && PositiveCloses(dm)
      modifies this
      ensures Valid()
      ensures dataMap == Some(dm) && dates == Some(runDates)
      ensures AssetsWithClose(dm) == {} ==>
                signals == old(signals) && portWealth == old(portWealth) && pastNReturns == old(pastNReturns)
      ensures AssetsWithClose(dm) != {} ==>
                && portWealth == Wealths(PortfolioColumns(Prices(dm), portfolios))
                && pastNReturns == PastN(portWealth, n)
                && signals == Some(SignalsOf(dm, portfolios, n))
    {
      dataMap := Some(dm);
      dates := Some(runDates);
      OnDataLoaded();
    }

    /** `on_data_loaded`: wealth curves, momentum and signals of the stored data. */
    method OnDataLoaded()
      requires Valid() && dataMap.Some? && PositiveCloses(dataMap.value)
      modifies this
      ensures Valid()
      ensures dataMap == old(dataMap) && dates == old(dates)
      ensures AssetsWithClose(dataMap.value) == {} ==>
                signals == old(signals) && portWealth == old(portWealth) && pastNReturns == old(pastNReturns)
      ensures AssetsWithClose(dataMap.value) != {} ==>
                && portWealth == Wealths(PortfolioColumns(Prices(dataMap.value), portfolios))
                && pastNReturns == PastN(portWealth, n)
                && signals == Some(SignalsOf(dataMap.value, portfolios, n))
    {
      var dm := dataMap.value;
      var dfs := CollectCloses(dm);
      assert dfs.Keys == AssetsWithClose(dm);
      if dfs == map[] {
        assert AssetsWithClose(dm) == dfs.Keys == {};
        return;
      }
      assert dfs.Keys != {} by {
        var k :| k in dfs;
      }
      var prices := Align(dfs);
      assert prices == Prices(dm);
      var dailyRets := ReturnsOf(prices);
      var len := |prices.index|;
      var wealth := PortfolioWealths(dailyRets, portfolios, len);
      portWealth := wealth;
      var pastN := PastN(wealth, n);
      pastNReturns := pastN;
      SignalsMatch(prices, portfolios, n);
      signals := Some(Signals(prices.index, RowLeaders(pastN, Keys(portfolios), len)));
    }

    /** `get_target_weights`: the weights to hold on `date`. */
    function GetTargetWeights(date: Date): (w: seq<Holding>)
      reads this
      requires Valid()
      ensures signals.None? ==> w == []
      ensures w == [] || exists j :: 0 <= j < |portfolios| && w == portfolios[j].portfolio.assets
      ensures AllAdmissible(portfolios) ==> LongOnly(w) && TotalWeight(w) <= 1.0
    {
      match signals
      case None => []
      case Some(sig) => WeightsFor(sig, portfolios, date)
    }
  }

  /**
   * The loop over the portfolios of `on_data_loaded`: each one's weighted
   * daily returns, compounded into its wealth curve.
   */
  method PortfolioWealths(rets: Returns, ps: seq<NamedPortfolio>, len: nat) returns (wealth: seq<PortColumn>)
    requires Rect(rets, len)
    ensures wealth == Wealths(AllReturns(rets, ps, len))
  {
    ghost var target := Wealths(AllReturns(rets, ps, len));
    wealth := [];
    var i := 0;
    while i < |ps|
      invariant 0 <= i <= |ps|
      invariant wealth == target[..i]
    {
      var pRet, _ := AccumulateHoldings(rets, ps[i].portfolio.assets, len);
      assert pRet == PortfolioReturn(rets, ps[i].portfolio.assets, len);
      assert target[..i + 1] == target[..i] + [target[i]];
      wealth := wealth + [PortColumn(ps[i].key, WealthIndex(pRet))];
      i := i + 1;
    }
    assert target[..|ps|] == target;
  }

  /**
   * `past_n_returns.idxmax(axis=1)` on the rows with a defined value, NaN on
   * the others: per row, the key of the first column with the largest
   * defined value.
   */
  function RowLeaders(pastN: seq<seq<Option<real>>>, keys: seq<PortKey>, len: nat): (values: seq<Option<PortKey>>)
    requires |keys| == |pastN| && forall j :: 0 <= j < |pastN| ==> |pastN[j]| == len
    ensures |values| == len
  {
    seq(len, t requires 0 <= t < len =>
      IdxMax(keys, seq(|pastN|, j requires 0 <= j < |pastN| => pastN[j][t])))
  }

  /** The signal values the object computes row by row are those of `SignalsFrom`. */
  lemma SignalsMatch(prices: Table, ps: seq<NamedPortfolio>, n: nat)
    requires PriceTable(prices)
    ensures var len, cs := |prices.index|, PortfolioColumns(prices, ps);
      && (forall j :: 0 <= j < |ps| ==> |PastN(Wealths(cs), n)[j]| == len)
      && RowLeaders(PastN(Wealths(cs), n), Keys(ps), len) == SignalsFrom(prices, ps, n).values
  {
    var len, cs := |prices.index|, PortfolioColumns(prices, ps);
    var pastN := PastN(Wealths(cs), n);
    forall t | 0 <= t < len
      ensures RowLeaders(pastN, Keys(ps), len)[t] == SignalsFrom(prices, ps, n).values[t]
    {
      assert seq(|pastN|, j requires 0 <= j < |pastN| => pastN[j][t]) == MomentumRow(cs, n, len, t);
    }
  }

  // ---------------------------------------------------------------------------
  // What the signals and the target weights promise
  // ---------------------------------------------------------------------------

  /** The signal index of a data map is every loaded date, ascending. */
  lemma SignalDates(dm: DataMap, ps: seq<NamedPortfolio>, n: nat)
    requires PositiveCloses(dm)
    ensures StrictlyIncreasing(SignalsOf(dm, ps, n).index)
    ensures forall d :: d in SignalsOf(dm, ps, n).index <==> d in UnionDates(ClosesOf(dm))
  {
    AlignSpec(ClosesOf(dm));
  }

  /** Each defined signal names the first portfolio whose n-day return is the largest. */
  lemma SignalNamesLeader(prices: Table, ps: seq<NamedPortfolio>, n: nat, t: nat)
    requires PriceTable(prices) && t < |prices.index|
    requires SignalsFrom(prices, ps, n).values[t].Some?
    ensures exists j :: 0 <= j < |ps| && ps[j].key == SignalsFrom(prices, ps, n).values[t].value &&
              IsFirstMax(MomentumRow(PortfolioColumns(prices, ps), n, |prices.index|, t), j)
  {
    var len, cs := |prices.index|, PortfolioColumns(prices, ps);
    var row := MomentumRow(cs, n, len, t);
    var key := SignalsFrom(prices, ps, n).values[t];
    assert key == IdxMax(ColumnKeys(cs), row);
    var j: nat :| IsFirstMax(row, j) && j < |ColumnKeys(cs)| && ColumnKeys(cs)[j] == key.value;
    assert Keys(ps)[j] == ps[j].key;
  }

  /** Daily asset returns are 0 on the first row and above -1 everywhere. */
  lemma DailyReturnsBounds(prices: Table)
    requires PriceTable(prices)
    ensures forall a, t :: a in ReturnsOf(prices) && 0 <= t < |prices.index| ==> ReturnsOf(prices)[a][t] > -1.0
    ensures forall a :: a in ReturnsOf(prices) && |prices.index| > 0 ==> ReturnsOf(prices)[a][0] == 0.0
  {
    forall a, t | a in ReturnsOf(prices) && 0 <= t < |prices.index|
      ensures ReturnsOf(prices)[a][t] > -1.0 && (t == 0 ==> ReturnsOf(prices)[a][t] == 0.0)
    {
      PctChangeRoundTrip(prices.cols[a], t);
    }
  }

  /** Under an admissible configuration every portfolio's daily return exceeds -1. */
  lemma ColumnsAboveMinusOne(prices: Table, ps: seq<NamedPortfolio>)
    requires PriceTable(prices) && AllAdmissible(ps)
    ensures forall j :: 0 <= j < |ps| ==> AboveMinusOne(PortfolioColumns(prices, ps)[j].series)
  {
    DailyReturnsBounds(prices);
    var rets, len := ReturnsOf(prices), |prices.index|;
    forall j, t | 0 <= j < |ps| && 0 <= t < len ensures AllReturns(rets, ps, len)[j].series[t] > -1.0 {
      WeightedSumAboveMinusOne(rets, ps[j].portfolio, t);
    }
  }

  /**
   * Every wealth curve starts at 1 and compounds its portfolio's daily
   * return: W[0] = 1 and W[t] = W[t-1] * (1 + r[t]).
   */
  lemma WealthStartsAtOne(prices: Table, ps: seq<NamedPortfolio>, j: nat)
    requires PriceTable(prices) && j < |ps| && |prices.index| > 0
    ensures Compounds(Wealths(PortfolioColumns(prices, ps))[j].series, PortfolioColumns(prices, ps)[j].series)
  {
    var cs := PortfolioColumns(prices, ps);
    FirstReturnZero(prices, ps, j);
    WealthFromFlatStart(cs[j].series);
    assert Wealths(cs)[j].series == WealthIndex(cs[j].series);
  }

  /** Every portfolio's return on the first row is 0. */
  lemma FirstReturnZero(prices: Table, ps: seq<NamedPortfolio>, j: nat)
    requires PriceTable(prices) && j < |ps| && |prices.index| > 0
    ensures PortfolioColumns(prices, ps)[j].series[0] == 0.0
  {
    DailyReturnsBounds(prices);
    WeightedSumOfZeroRow(ReturnsOf(prices), ps[j].portfolio.assets, 0);
  }

  /**
   * Under an admissible configuration with at least one portfolio, the
   * signal is NaN exactly on the first `n` dates.
   */
  lemma SignalUndefinedIff(prices: Table, ps: seq<NamedPortfolio>, n: nat, t: nat)
    requires PriceTable(prices) && AllAdmissible(ps) && |ps| > 0 && t < |prices.index|
    ensures SignalsFrom(prices, ps, n).values[t].None? <==> t < n
  {
    ColumnsAboveMinusOne(prices, ps);
    var len, cs := |prices.index|, PortfolioColumns(prices, ps);
    var row := MomentumRow(cs, n, len, t);
    forall j | 0 <= j < |cs| ensures row[j].Some? <==> t >= n {
      NDayDefined(cs[j].series, n, t);
    }
    assert SignalsFrom(prices, ps, n).values[t] == IdxMax(ColumnKeys(cs), row);
    if t >= n {
      assert row[0].Some?;
    }
  }

  /** No weights on a date that is not in the index. */
  lemma NoWeightsOffIndex(sig: Signals, ps: seq<NamedPortfolio>, date: Date)
    requires |sig.values| == |sig.index| && date !in sig.index
    ensures WeightsFor(sig, ps, date) == []
  {
  }

  /**
   * No weights on the first date or on any of the first `n` dates after it:
   * the signal of the day before is NaN.
   */
  lemma NoWeightsDuringWarmUp(prices: Table, ps: seq<NamedPortfolio>, n: nat, loc: nat)
    requires PriceTable(prices) && StrictlyIncreasing(prices.index)
    requires loc <= n && loc < |prices.index|
    ensures WeightsFor(SignalsFrom(prices, ps, n), ps, prices.index[loc]) == []
  {
    IndexOfSorted(prices.index, loc);
    if loc > 0 {
      var len, cs := |prices.index|, PortfolioColumns(prices, ps);
      var row := MomentumRow(cs, n, len, loc - 1);
      assert forall j :: 0 <= j < |row| ==> row[j].None?;
      assert SignalsFrom(prices, ps, n).values[loc - 1] == IdxMax(ColumnKeys(cs), row);
    }
  }

  /**
   * After the warm-up, with distinct keys and an admissible configuration,
   * the weights on a date are those of the first portfolio whose n-day
   * return was the largest on the date before.
   */
  lemma WeightsFollowLeader(prices: Table, ps: seq<NamedPortfolio>, n: nat, loc: nat)
    requires PriceTable(prices) && StrictlyIncreasing(prices.index)
    requires AllAdmissible(ps) && DistinctKeys(ps) && |ps| > 0
    requires n < loc < |prices.index|
    ensures exists j :: 0 <= j < |ps| &&
              IsFirstMax(MomentumRow(PortfolioColumns(prices, ps), n, |prices.index|, loc - 1), j) &&
              WeightsFor(SignalsFrom(prices, ps, n), ps, prices.index[loc]) == ps[j].portfolio.assets
  {
    var s := SignalsFrom(prices, ps, n);
    IndexOfSorted(s.index, loc);
    SignalUndefinedIff(prices, ps, n, loc - 1);
    var cs := PortfolioColumns(prices, ps);
    var row := MomentumRow(cs, n, |prices.index|, loc - 1);
    assert s.values[loc - 1] == IdxMax(ColumnKeys(cs), row);
    var j: nat :| IsFirstMax(row, j) && j < |ColumnKeys(cs)| && ColumnKeys(cs)[j] == s.values[loc - 1].value;
    assert ps[j].key == Keys(ps)[j];
    LookupDistinct(ps, j);
    assert WeightsFor(s, ps, prices.index[loc]) == ps[j].portfolio.assets;
  }

  /** Under the shipped configuration the target weights are empty or add up to exactly 1. */
  lemma ConfiguredWeightsFullyInvested(sig: Signals, date: Date)
    requires |sig.values| == |sig.index|
    ensures var w := WeightsFor(sig, Config.ConfiguredPortfolios, date);
      w == [] || (LongOnly(w) && TotalWeight(w) == 1.0)
  {
    Config.ConfiguredPortfoliosFullyInvested();
  }

  // ---------------------------------------------------------------------------
  // No look-ahead
  // ---------------------------------------------------------------------------

  /** The daily returns on the first `i` rows read only the first `i` rows of prices. */
  lemma ReturnsAgreeBefore(p1: Table, p2: Table, i: nat)
    requires PriceTable(p1) && PriceTable(p2) && p1.cols.Keys == p2.cols.Keys
    requires i <= |p1.index| && i <= |p2.index|
    requires forall k, t :: k in p1.cols && 0 <= t < i ==> p1.cols[k][t] == p2.cols[k][t]
    ensures ReturnsOf(p1).Keys == ReturnsOf(p2).Keys
    ensures forall k, t :: k in ReturnsOf(p1) && 0 <= t < i ==> ReturnsOf(p1)[k][t] == ReturnsOf(p2)[k][t]
  {
  }

  /** ... and so do the portfolio returns. */
  lemma ColumnsAgreeBefore(r1: Returns, r2: Returns, ps: seq<NamedPortfolio>, len1: nat, len2: nat, i: nat)
    requires Rect(r1, len1) && Rect(r2, len2) && r1.Keys == r2.Keys && i <= len1 && i <= len2
    requires forall k, t :: k in r1 && 0 <= t < i ==> r1[k][t] == r2[k][t]
    ensures forall j :: 0 <= j < |ps| ==> AllReturns(r1, ps, len1)[j].series[..i] == AllReturns(r2, ps, len2)[j].series[..i]
  {
    forall j | 0 <= j < |ps| ensures AllReturns(r1, ps, len1)[j].series[..i] == AllReturns(r2, ps, len2)[j].series[..i] {
      forall t | 0 <= t < i
        ensures AllReturns(r1, ps, len1)[j].series[t] == AllReturns(r2, ps, len2)[j].series[t]
      {
        WeightedSumSameRow(r1, r2, ps[j].portfolio.assets, t);
      }
    }
  }

  /**
   * The weights on row `i` of a price table read only the rows before `i`:
   * two tables with the same assets that agree on their first `i` rows give
   * the same weights on their row `i`.
   */
  lemma WeightsReadOnlyThePast(p1: Table, p2: Table, ps: seq<NamedPortfolio>, n: nat, i: nat)
    requires PriceTable(p1) && PriceTable(p2) && p1.cols.Keys == p2.cols.Keys
    requires StrictlyIncreasing(p1.index) && StrictlyIncreasing(p2.index)
    requires i < |p1.index| && i < |p2.index|
    requires forall k, t :: k in p1.cols && 0 <= t < i ==> p1.cols[k][t] == p2.cols[k][t]
    ensures WeightsFor(SignalsFrom(p1, ps, n), ps, p1.index[i]) == WeightsFor(SignalsFrom(p2, ps, n), ps, p2.index[i])
  {
    if i > 0 {
      SignalsAgreeBefore(p1, p2, ps, n, i - 1);
    }
    WeightsForSameSignal(SignalsFrom(p1, ps, n), SignalsFrom(p2, ps, n), ps, i);
  }

  /**
   * Two ascending signal series with the same signal just before row `i`
   * give the same weights on their row `i`.
   */
  lemma WeightsForSameSignal(s1: Signals, s2: Signals, ps: seq<NamedPortfolio>, i: nat)
    requires |s1.values| == |s1.index| && |s2.values| == |s2.index|
    requires StrictlyIncreasing(s1.index) && StrictlyIncreasing(s2.index)
    requires i < |s1.index| && i < |s2.index|
    requires i > 0 ==> s1.values[i - 1] == s2.values[i - 1]
    ensures WeightsFor(s1, ps, s1.index[i]) == WeightsFor(s2, ps, s2.index[i])
  {
    var d1, d2 := s1.index[i], s2.index[i];
    IndexOfSorted(s1.index, i);
    IndexOfSorted(s2.index, i);
    if i > 0 {
      match s1.values[i - 1]
      case None =>
        assert WeightsFor(s1, ps, d1) == [] == WeightsFor(s2, ps, d2);
      case Some(key) =>
        var w := match Lookup(ps, key) case None => [] case Some(p) => p.assets;
        assert WeightsFor(s1, ps, d1) == w == WeightsFor(s2, ps, d2);
    }
  }

  /** Tables that agree on their rows up to `t` give the same signal on row `t`. */
  lemma SignalsAgreeBefore(p1: Table, p2: Table, ps: seq<NamedPortfolio>, n: nat, t: nat)
    requires PriceTable(p1) && PriceTable(p2) && p1.cols.Keys == p2.cols.Keys
    requires t < |p1.index| && t < |p2.index|
    requires forall k, s :: k in p1.cols && 0 <= s <= t ==> p1.cols[k][s] == p2.cols[k][s]
    ensures SignalsFrom(p1, ps, n).values[t] == SignalsFrom(p2, ps, n).values[t]
  {
    ReturnsAgreeBefore(p1, p2, t + 1);
    var len1, len2 := |p1.index|, |p2.index|;
    ColumnsAgreeBefore(ReturnsOf(p1), ReturnsOf(p2), ps, len1, len2, t + 1);
    SignalPrefix(PortfolioColumns(p1, ps), PortfolioColumns(p2, ps), n, len1, len2, t);
  }

  /**
   * Two data maps that hold the same assets and the same observations
   * before `date`, and that both have or both lack observations on `date`;
   * anything after `date` may differ.
   */
  ghost predicate AgreeBefore(dm1: DataMap, dm2: DataMap, date: Date) {
    var c1, c2 := ClosesOf(dm1), ClosesOf(dm2);
    && c1.Keys == c2.Keys
    && (forall k, d :: k in c1 && d < date ==> (d in c1[k] <==> d in c2[k]))
    && (forall k, d :: k in c1 && d < date && d in c1[k] ==> c1[k][d] == c2[k][d])
    && (date in UnionDates(c1) <==> date in UnionDates(c2))
  }

  /** Agreeing data has the same loaded dates before `date`. */
  lemma DatesAgreeBefore(dm1: DataMap, dm2: DataMap, date: Date, x: Date)
    requires AgreeBefore(dm1, dm2, date) && x < date
    ensures x in UnionDates(ClosesOf(dm1)) <==> x in UnionDates(ClosesOf(dm2))
  {
    var c1, c2 := ClosesOf(dm1), ClosesOf(dm2);
    if x in UnionDates(c1) {
      var k :| k in c1 && x in c1[k];
      assert k in c2 && x in c2[k];
    }
    if x in UnionDates(c2) {
      var k :| k in c2 && x in c2[k];
      assert k in c1 && x in c1[k];
    }
  }

  /** Agreeing data has the same forward-filled closes on the shared dates before `date`. */
  lemma PricesAgreeBefore(dm1: DataMap, dm2: DataMap, date: Date, i: nat)
    requires PositiveCloses(dm1) && PositiveCloses(dm2) && AgreeBefore(dm1, dm2, date)
    requires i <= |Prices(dm1).index| && i <= |Prices(dm2).index|
    requires Prices(dm1).index[..i] == Prices(dm2).index[..i]
    requires forall t :: 0 <= t < i ==> Prices(dm1).index[t] < date
    ensures forall k, t :: k in Prices(dm1).cols && 0 <= t < i ==> Prices(dm1).cols[k][t] == Prices(dm2).cols[k][t]
  {
    var c1, c2 := ClosesOf(dm1), ClosesOf(dm2);
    AlignSpec(c1);
    AlignSpec(c2);
    forall k, t | k in Prices(dm1).cols && 0 <= t < i
      ensures Prices(dm1).cols[k][t] == Prices(dm2).cols[k][t]
    {
      var d := Prices(dm1).index[t];
      assert Prices(dm2).index[t] == Prices(dm2).index[..i][t] == d;
      LatestCloseBefore(c1[k], c2[k], d);
    }
  }

  /**
   * No look-ahead: the target weights on `date` depend only on the data
   * observed before `date` (and on whether `date` itself was loaded).
   */
  lemma NoLookAhead(dm1: DataMap, dm2: DataMap, ps: seq<NamedPortfolio>, n: nat, date: Date)
    requires PositiveCloses(dm1) && PositiveCloses(dm2) && AgreeBefore(dm1, dm2, date)
    ensures WeightsFor(SignalsOf(dm1, ps, n), ps, date) == WeightsFor(SignalsOf(dm2, ps, n), ps, date)
  {
    var p1, p2 := Prices(dm1), Prices(dm2);
    SignalDates(dm1, ps, n);
    SignalDates(dm2, ps, n);
    if date in UnionDates(ClosesOf(dm1)) {
      forall x | x < date ensures x in p1.index <==> x in p2.index {
        DatesAgreeBefore(dm1, dm2, date, x);
      }
      var i := SameDatesBefore(p1.index, p2.index, date);
      forall t | 0 <= t < i ensures p1.index[t] < date { }
      PricesAgreeBefore(dm1, dm2, date, i);
      WeightsReadOnlyThePast(p1, p2, ps, n, i);
    } else {
      NoWeightsOffIndex(SignalsOf(dm1, ps, n), ps, date);
      NoWeightsOffIndex(SignalsOf(dm2, ps, n), ps, date);
    }
  }
}
