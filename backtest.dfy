/**
 * The backtest engine: aligning the loaded closes on one ascending calendar,
 * daily returns, portfolio returns, the rotation strategy's returns and the
 * performance metrics.
 */
module Backtest {
  import opened Wrappers
  import opened Frames
  import opened Portfolios
  import Config

  /** `ValueError("No data loaded")`: no frame has a close column. */
  datatype AlignError = NoDataLoaded

  /**
   * `ValueError` from `idxmax(axis=1)` over rows with no column at all (no
   * portfolio has a present asset), or `KeyError(p_key)`: a configured
   * portfolio got no return column.
   */
  datatype StrategyError = EmptyArgMax | MissingPortfolio(key: PortKey)

  /**
   * `_align_data`: the closes outer-joined on their dates, sorted, forward
   * filled and cut to the dates from `startDate` on.
   */
  method AlignData(dataMap: DataMap, startDate: Date) returns (r: Result<Table, AlignError>)
    ensures r.Failure? <==> AssetsWithClose(dataMap) == {}
    ensures r.Success? ==> r.value == FilterFrom(Align(ClosesOf(dataMap)), startDate)
    ensures r.Success? ==> Rectangular(r.value) && StrictlyIncreasing(r.value.index)
    ensures r.Success? ==> forall t :: 0 <= t < |r.value.index| ==> r.value.index[t] >= startDate
    ensures r.Success? ==> forall d :: d in r.value.index <==> d >= startDate && d in UnionDates(ClosesOf(dataMap))
    ensures r.Success? ==> r.value.cols.Keys == AssetsWithClose(dataMap)
    ensures r.Success? ==> forall k, t :: k in r.value.cols && 0 <= t < |r.value.index| ==>
              r.value.cols[k][t] == LatestClose(dataMap[k].close.value, r.value.index[t])
  {
    var dfs := CollectCloses(dataMap);
    assert dfs.Keys == AssetsWithClose(dataMap);
    if dfs == map[] {
      return Failure(NoDataLoaded);
    }
    var combined := Align(dfs);
    AlignSpec(dfs);
    FilterFromSpec(combined, startDate);
    r := Success(FilterFrom(combined, startDate));
    var n := CountBefore(combined.index, startDate);
    forall t | 0 <= t < |r.value.index| ensures r.value.index[t] >= startDate {
      assert r.value.index[t] in r.value.index;
    }
  }

  /** The engine after construction: the aligned closes and their daily returns. */
  datatype Engine = Engine(startDate: Date, dataMap: DataMap, alignedData: Table, dailyReturns: Returns)

  /** What construction establishes and every later step relies on. */
  predicate Valid(e: Engine) {
    && Rectangular(e.alignedData)
    && StrictlyIncreasing(e.alignedData.index)
    && PositiveTable(e.alignedData)
    && e.dailyReturns == TableReturns(e.alignedData)
  }

  function Days(e: Engine): nat {
    |e.alignedData.index|
  }

  /**
   * `BacktestEngine.__init__` on already loaded data: align, then
   * `pct_change().fillna(0)`.
   */
  method NewEngine(dataMap: DataMap, startDate: Date := Config.StartDate) returns (r: Result<Engine, AlignError>)
    requires PositiveCloses(dataMap)
    ensures r.Failure? <==> AssetsWithClose(dataMap) == {}
    ensures r.Success? ==> Valid(r.value)
    ensures r.Success? ==> r.value.startDate == startDate && r.value.dataMap == dataMap
    ensures r.Success? ==> r.value.alignedData == FilterFrom(Align(ClosesOf(dataMap)), startDate)
  {
    var aligned := AlignData(dataMap, startDate);
    if aligned.Failure? {
      return Failure(aligned.error);
    }
    ClosesPositive(dataMap);
    AlignPositive(ClosesOf(dataMap));
    FilterFromPositive(Align(ClosesOf(dataMap)), startDate);
    r := Success(Engine(startDate, dataMap, aligned.value, TableReturns(aligned.value)));
  }

  /**
   * The engine's daily returns: one column per aligned asset, 0 on the first
   * row, above -1 everywhere, and each a ratio of consecutive closes.
   */
  lemma EngineReturns(e: Engine)
    requires Valid(e)
    ensures e.dailyReturns.Keys == e.alignedData.cols.Keys
    ensures Rect(e.dailyReturns, Days(e))
    ensures forall a, t :: a in e.dailyReturns && 0 <= t < Days(e) ==> e.dailyReturns[a][t] > -1.0
    ensures forall a :: a in e.dailyReturns && Days(e) > 0 ==> e.dailyReturns[a][0] == 0.0
    ensures forall a, t ::
              a in e.dailyReturns && 0 < t < Days(e) &&
              e.alignedData.cols[a][t - 1].Some? && e.alignedData.cols[a][t].Some? ==>
              e.alignedData.cols[a][t].value == e.alignedData.cols[a][t - 1].value * (1.0 + e.dailyReturns[a][t])
  {
    forall a, t | a in e.dailyReturns && 0 <= t < Days(e)
      ensures e.dailyReturns[a][t] > -1.0
      ensures t == 0 ==> e.dailyReturns[a][t] == 0.0
      ensures t > 0 && e.alignedData.cols[a][t - 1].Some? && e.alignedData.cols[a][t].Some? ==>
              e.alignedData.cols[a][t].value == e.alignedData.cols[a][t - 1].value * (1.0 + e.dailyReturns[a][t])
    {
      PctChangeRoundTrip(e.alignedData.cols[a], t);
    }
  }

  // ---------------------------------------------------------------------------
  // Portfolio returns
  // ---------------------------------------------------------------------------

  /** The portfolios with at least one present asset, in order, with their return columns. */
  function PresentReturns(rets: Returns, ps: seq<NamedPortfolio>, len: nat): (cs: seq<PortColumn>)
    requires Rect(rets, len)
    ensures |cs| <= |ps|
    ensures forall j :: 0 <= j < |cs| ==> |cs[j].series| == len
  {
    if ps == [] then []
    else
      var init := PresentReturns(rets, ps[..|ps| - 1], len);
      var p := ps[|ps| - 1];
      if AnyPresent(rets, p.portfolio.assets)
      then init + [PortColumn(p.key, PortfolioReturn(rets, p.portfolio.assets, len))]
      else init
  }

  /** `calculate_portfolio_returns`. */
  method CalculatePortfolioReturns(e: Engine, ps: seq<NamedPortfolio>) returns (portRets: seq<PortColumn>)
    requires Valid(e)
    ensures Rect(e.dailyReturns, Days(e))
    ensures portRets == PresentReturns(e.dailyReturns, ps, Days(e))
  {
    EngineReturns(e);
    var len := Days(e);
    portRets := [];
    var i := 0;
    while i < |ps|
      invariant 0 <= i <= |ps|
      invariant portRets == PresentReturns(e.dailyReturns, ps[..i], len)
    {
      var pRet, valid := AccumulateHoldings(e.dailyReturns, ps[i].portfolio.assets, len);
      assert ps[..i + 1][..i] == ps[..i];
      assert ps[..i + 1][i] == ps[i];
      if valid {
        assert pRet == PortfolioReturn(e.dailyReturns, ps[i].portfolio.assets, len);
        portRets := portRets + [PortColumn(ps[i].key, pRet)];
      }
      i := i + 1;
    }
    assert ps[..|ps|] == ps;
  }

  /** `c` is the return column of portfolio `p`, which has a present asset. */
  predicate ColumnFrom(rets: Returns, p: NamedPortfolio, len: nat, c: PortColumn)
    requires Rect(rets, len)
  {
    c.key == p.key && AnyPresent(rets, p.portfolio.assets) &&
    c.series == PortfolioReturn(rets, p.portfolio.assets, len)
  }

  predicate IsColumnOf(rets: Returns, ps: seq<NamedPortfolio>, len: nat, c: PortColumn)
    requires Rect(rets, len)
  {
    exists i :: 0 <= i < |ps| && ColumnFrom(rets, ps[i], len, c)
  }

  /**
   * There is a column exactly for each portfolio with a present asset, and it
   * holds that portfolio's weighted-sum returns.
   */
  lemma {:induction false} PresentReturnsSpec(rets: Returns, ps: seq<NamedPortfolio>, len: nat)
    requires Rect(rets, len)
    ensures forall c :: c in PresentReturns(rets, ps, len) ==> IsColumnOf(rets, ps, len, c)
    ensures forall i :: 0 <= i < |ps| && AnyPresent(rets, ps[i].portfolio.assets) ==>
              PortColumn(ps[i].key, PortfolioReturn(rets, ps[i].portfolio.assets, len)) in PresentReturns(rets, ps, len)
  {
    if ps != [] {
      var init, p := ps[..|ps| - 1], ps[|ps| - 1];
      PresentReturnsSpec(rets, init, len);
      var cs0, cs := PresentReturns(rets, init, len), PresentReturns(rets, ps, len);
      forall c | c in cs0 ensures IsColumnOf(rets, ps, len, c) {
        assert IsColumnOf(rets, init, len, c);
        var i :| 0 <= i < |init| && ColumnFrom(rets, init[i], len, c);
        assert init[i] == ps[i];
      }
      forall i | 0 <= i < |init| && AnyPresent(rets, ps[i].portfolio.assets)
        ensures PortColumn(ps[i].key, PortfolioReturn(rets, ps[i].portfolio.assets, len)) in cs
      {
        assert init[i] == ps[i];
      }
      if AnyPresent(rets, p.portfolio.assets) {
        var last := PortColumn(p.key, PortfolioReturn(rets, p.portfolio.assets, len));
        assert cs == cs0 + [last];
        assert ColumnFrom(rets, ps[|ps| - 1], len, last);
      }
    }
  }

  predicate DistinctColumns(cs: seq<PortColumn>) {
    forall i, j :: 0 <= i < j < |cs| ==> cs[i].key != cs[j].key
  }

  /** Distinct portfolio keys give distinct column keys. */
  lemma {:induction false} PresentReturnsDistinct(rets: Returns, ps: seq<NamedPortfolio>, len: nat)
    requires Rect(rets, len) && DistinctKeys(ps)
    ensures DistinctColumns(PresentReturns(rets, ps, len))
  {
    if ps != [] {
      var init := ps[..|ps| - 1];
      assert DistinctKeys(init) by {
        assert forall i :: 0 <= i < |init| ==> init[i] == ps[i];
      }
      PresentReturnsDistinct(rets, init, len);
      PresentReturnsSpec(rets, init, len);
      var cs0 := PresentReturns(rets, init, len);
      var p := ps[|ps| - 1];
      forall j | 0 <= j < |cs0| ensures cs0[j].key != p.key {
        assert cs0[j] in cs0;
        assert IsColumnOf(rets, init, len, cs0[j]);
        var i :| 0 <= i < |init| && ColumnFrom(rets, init[i], len, cs0[j]);
        assert init[i] == ps[i];
      }
      if AnyPresent(rets, p.portfolio.assets) {
        var cs := PresentReturns(rets, ps, len);
        assert cs == cs0 + [PortColumn(p.key, PortfolioReturn(rets, p.portfolio.assets, len))];
        forall i, j | 0 <= i < j < |cs| ensures cs[i].key != cs[j].key {
          if j == |cs0| {
            assert cs[i] == cs0[i];
          } else {
            assert cs[i] == cs0[i] && cs[j] == cs0[j];
          }
        }
      }
    }
  }

  // ---------------------------------------------------------------------------
  // The rotation strategy
  // ---------------------------------------------------------------------------

  /** `shift(1)`: yesterday's value, NaN on the first row. */
  function Shift<T>(xs: seq<Option<T>>): (r: seq<Option<T>>)
    ensures |r| == |xs|
  {
    seq(|xs|, t requires 0 <= t < |xs| => if t == 0 then None else xs[t - 1])
  }

  /** The position of the first column with this key. */
  function FindColumn(cs: seq<PortColumn>, key: PortKey): (r: Option<nat>)
    ensures r.None? <==> forall j :: 0 <= j < |cs| ==> cs[j].key != key
    ensures r.Some? ==> r.value < |cs| && cs[r.value].key == key
  {
    if cs == [] then None
    else if cs[0].key == key then Some(0)
    else
      var r := FindColumn(cs[1..], key);
      assert forall j :: 1 <= j < |cs| ==> cs[j] == cs[1..][j - 1];
      if r.None? then None else Some(r.value + 1)
  }

  /** The return on each day of the portfolio the active signal names, 0 when none is named. */
  function StrategyReturns(cs: seq<PortColumn>, active: seq<Option<PortKey>>, len: nat): (r: seq<real>)
    requires Columns(cs, len) && |active| == len
    ensures |r| == len
  {
    seq(len, t requires 0 <= t < len =>
      match active[t]
      case None => 0.0
      case Some(k) => match FindColumn(cs, k) case None => 0.0 case Some(j) => cs[j].series[t])
  }

  /** The three series `run_strategy` returns. */
  datatype StrategyRun = StrategyRun(strategyRet: seq<real>, activeSignal: seq<Option<PortKey>>, portRets: seq<PortColumn>)

  /**
   * `run_strategy`: hold on each day the portfolio whose n-day return was
   * best the day before. `idxmax` fails when there are rows but no portfolio
   * column at all; otherwise the loop fails on the first configured
   * portfolio that has no return column.
   */
  method RunStrategy(e: Engine, ps: seq<NamedPortfolio>, n: nat := Config.DefaultN) returns (r: Result<StrategyRun, StrategyError>)
    requires Valid(e) && DistinctKeys(ps)
    ensures Rect(e.dailyReturns, Days(e))
    ensures r.Success? <==>
              (forall j :: 0 <= j < |ps| ==> AnyPresent(e.dailyReturns, ps[j].portfolio.assets)) &&
              !(Days(e) > 0 && NonePresent(e.dailyReturns, ps))
    ensures r.Failure? && r.error == EmptyArgMax <==> Days(e) > 0 && NonePresent(e.dailyReturns, ps)
    ensures r.Failure? && r.error.MissingPortfolio? ==>
              exists j :: 0 <= j < |ps| && r.error == MissingPortfolio(ps[j].key) &&
                !AnyPresent(e.dailyReturns, ps[j].portfolio.assets) &&
                forall i :: 0 <= i < j ==> AnyPresent(e.dailyReturns, ps[i].portfolio.assets)
    ensures r.Success? ==> r.value.portRets == PresentReturns(e.dailyReturns, ps, Days(e))
    ensures r.Success? ==> r.value.activeSignal == Shift(Signal(r.value.portRets, n, Days(e)))
    ensures r.Success? ==> r.value.strategyRet == StrategyReturns(r.value.portRets, r.value.activeSignal, Days(e))
    ensures r.Success? ==> forall t :: 0 <= t < Days(e) && r.value.activeSignal[t].None? ==> r.value.strategyRet[t] == 0.0
    ensures r.Success? ==> forall t, j ::
              0 <= t < Days(e) && 0 <= j < |r.value.portRets| && r.value.activeSignal[t] == Some(r.value.portRets[j].key) ==>
              r.value.strategyRet[t] == r.value.portRets[j].series[t]
  {
    var len := Days(e);
    var cs := CalculatePortfolioReturns(e, ps);
    NoColumnsIffNonePresent(e.dailyReturns, ps, len);
    if |cs| == 0 && len > 0 {
      return Failure(EmptyArgMax);
    }
    PresentReturnsDistinct(e.dailyReturns, ps, len);
    var active := Shift(Signal(cs, n, len));
    var held := AssignHeld(cs, Keys(ps), active, len);
    forall i | 0 <= i < |ps|
      ensures FindColumn(cs, ps[i].key).Some? <==> AnyPresent(e.dailyReturns, ps[i].portfolio.assets)
    {
      ColumnForEachPresent(e.dailyReturns, ps, len, i);
      var f := FindColumn(cs, ps[i].key);
      if f.Some? {
        ColumnOnlyIfPresent(e.dailyReturns, ps, len, f.value, i);
      }
    }
    if held.Failure? {
      return Failure(held.error);
    }
    ActiveNamesPortfolio(e.dailyReturns, ps, n, len);
    r := Success(StrategyRun(held.value, active, cs));
    StrategyReturnsSpec(cs, active, len);
  }

  /**
   * The loop `strategy_ret[mask] = port_daily_rets[p_key][mask]` over the
   * configured keys: fails at the first key without a column, and otherwise
   * copies the held column's return on each day whose signal is one of the keys.
   */
  method AssignHeld(cs: seq<PortColumn>, keys: seq<PortKey>, active: seq<Option<PortKey>>, len: nat)
    returns (res: Result<seq<real>, StrategyError>)
    requires Columns(cs, len) && |active| == len
    ensures res.Success? <==> forall i :: 0 <= i < |keys| ==> FindColumn(cs, keys[i]).Some?
    ensures res.Failure? ==>
              exists i :: 0 <= i < |keys| && res.error == MissingPortfolio(keys[i]) &&
                FindColumn(cs, keys[i]).None? && forall i' :: 0 <= i' < i ==> FindColumn(cs, keys[i']).Some?
    ensures res.Success? ==> |res.value| == len
    ensures res.Success? ==> forall t :: 0 <= t < len ==>
              res.value[t] == if active[t].Some? && active[t].value in keys then StrategyReturns(cs, active, len)[t] else 0.0
  {
    var target := StrategyReturns(cs, active, len);
    var strategyRet := seq(len, _ => 0.0);
    var i := 0;
    while i < |keys|
      invariant 0 <= i <= |keys|
      invariant forall i' :: 0 <= i' < i ==> FindColumn(cs, keys[i']).Some?
      invariant |strategyRet| == len
      invariant forall t :: 0 <= t < len ==>
                  strategyRet[t] == if active[t].Some? && active[t].value in keys[..i] then target[t] else 0.0
    {
      var col := FindColumn(cs, keys[i]);
      if col.None? {
        return Failure(MissingPortfolio(keys[i]));
      }
      var c := cs[col.value].series;
      strategyRet := seq(len, t requires 0 <= t < len =>
        if active[t] == Some(keys[i]) then c[t] else strategyRet[t]);
      assert keys[..i + 1] == keys[..i] + [keys[i]];
      i := i + 1;
    }
    assert keys[..|keys|] == keys;
    res := Success(strategyRet);
  }

  /** Every portfolio the active signal names is a configured one. */
  lemma ActiveNamesPortfolio(rets: Returns, ps: seq<NamedPortfolio>, n: nat, len: nat)
    requires Rect(rets, len)
    ensures var cs := PresentReturns(rets, ps, len);
      var active := Shift(Signal(cs, n, len));
      forall t :: 0 <= t < len && active[t].Some? ==> active[t].value in Keys(ps)
  {
    var cs := PresentReturns(rets, ps, len);
    var active := Shift(Signal(cs, n, len));
    PresentReturnsSpec(rets, ps, len);
    forall t | 0 <= t < len && active[t].Some? ensures active[t].value in Keys(ps) {
      SignalNamesColumn(cs, n, len, t - 1);
      var j :| 0 <= j < |cs| && cs[j].key == active[t].value;
      assert cs[j] in cs;
      var i' :| 0 <= i' < |ps| && ColumnFrom(rets, ps[i'], len, cs[j]);
      assert Keys(ps)[i'] == active[t].value;
    }
  }

  /** No portfolio holds an asset that has a return column. */
  predicate NonePresent(rets: Returns, ps: seq<NamedPortfolio>) {
    forall j :: 0 <= j < |ps| ==> !AnyPresent(rets, ps[j].portfolio.assets)
  }

  /** The portfolio return table has no column exactly when no portfolio has a present asset. */
  lemma NoColumnsIffNonePresent(rets: Returns, ps: seq<NamedPortfolio>, len: nat)
    requires Rect(rets, len)
    ensures |PresentReturns(rets, ps, len)| == 0 <==> NonePresent(rets, ps)
  {
    var cs := PresentReturns(rets, ps, len);
    if |cs| == 0 {
      forall j | 0 <= j < |ps| ensures !AnyPresent(rets, ps[j].portfolio.assets) {
        ColumnForEachPresent(rets, ps, len, j);
      }
    } else {
      PresentReturnsSpec(rets, ps, len);
      assert cs[0] in cs;
      assert IsColumnOf(rets, ps, len, cs[0]);
    }
  }

  /** A portfolio with a present asset has a column. */
  lemma ColumnForEachPresent(rets: Returns, ps: seq<NamedPortfolio>, len: nat, i: nat)
    requires Rect(rets, len) && i < |ps|
    ensures AnyPresent(rets, ps[i].portfolio.assets) ==> FindColumn(PresentReturns(rets, ps, len), ps[i].key).Some?
  {
    if AnyPresent(rets, ps[i].portfolio.assets) {
      ColumnExists(rets, ps, len, i);
    }
  }

  lemma ColumnExists(rets: Returns, ps: seq<NamedPortfolio>, len: nat, i: nat)
    requires Rect(rets, len) && i < |ps| && AnyPresent(rets, ps[i].portfolio.assets)
    ensures FindColumn(PresentReturns(rets, ps, len), ps[i].key).Some?
  {
    PresentReturnsSpec(rets, ps, len);
    var cs := PresentReturns(rets, ps, len);
    var c := PortColumn(ps[i].key, PortfolioReturn(rets, ps[i].portfolio.assets, len));
    assert c in cs;
    var j :| 0 <= j < |cs| && cs[j] == c;
  }

  /** With distinct keys, a column found under a portfolio's key is that portfolio's column. */
  lemma ColumnOnlyIfPresent(rets: Returns, ps: seq<NamedPortfolio>, len: nat, j: nat, i: nat)
    requires Rect(rets, len) && DistinctKeys(ps) && i < |ps|
    requires j < |PresentReturns(rets, ps, len)| && PresentReturns(rets, ps, len)[j].key == ps[i].key
    ensures AnyPresent(rets, ps[i].portfolio.assets)
    ensures PresentReturns(rets, ps, len)[j].series == PortfolioReturn(rets, ps[i].portfolio.assets, len)
  {
    PresentReturnsSpec(rets, ps, len);
    var c := PresentReturns(rets, ps, len)[j];
    assert c in PresentReturns(rets, ps, len);
    var i' :| 0 <= i' < |ps| && ColumnFrom(rets, ps[i'], len, c);
  }

  /** A defined signal names one of the columns. */
  lemma SignalNamesColumn(cs: seq<PortColumn>, n: nat, len: nat, t: nat)
    requires Columns(cs, len) && t < len && Signal(cs, n, len)[t].Some?
    ensures exists j :: 0 <= j < |cs| && cs[j].key == Signal(cs, n, len)[t].value
  {
    var k: nat :| IsFirstMax(MomentumRow(cs, n, len, t), k) && k < |ColumnKeys(cs)| &&
                  ColumnKeys(cs)[k] == Signal(cs, n, len)[t].value;
  }

  /**
   * With distinct column keys the strategy earns nothing while no portfolio
   * is held, and the held portfolio's return otherwise.
   */
  lemma StrategyReturnsSpec(cs: seq<PortColumn>, active: seq<Option<PortKey>>, len: nat)
    requires Columns(cs, len) && |active| == len && DistinctColumns(cs)
    ensures forall t :: 0 <= t < len && active[t].None? ==> StrategyReturns(cs, active, len)[t] == 0.0
    ensures forall t, j :: 0 <= t < len && 0 <= j < |cs| && active[t] == Some(cs[j].key) ==>
              StrategyReturns(cs, active, len)[t] == cs[j].series[t]
  {
    forall t, j | 0 <= t < len && 0 <= j < |cs| && active[t] == Some(cs[j].key)
      ensures StrategyReturns(cs, active, len)[t] == cs[j].series[t]
    {
      var f := FindColumn(cs, cs[j].key);
      assert f.Some?;
      assert f.value == j;
    }
  }

  /**
   * Every portfolio column of an admissible configuration starts at 0 and
   * stays above -1.
   */
  lemma PortfolioColumnsAboveMinusOne(e: Engine, ps: seq<NamedPortfolio>)
    requires Valid(e) && AllAdmissible(ps)
    ensures Rect(e.dailyReturns, Days(e))
    ensures forall c :: c in PresentReturns(e.dailyReturns, ps, Days(e)) ==> AboveMinusOne(c.series)
    ensures forall c :: c in PresentReturns(e.dailyReturns, ps, Days(e)) && Days(e) > 0 ==> c.series[0] == 0.0
  {
    EngineReturns(e);
    var rets, len := e.dailyReturns, Days(e);
    PresentReturnsSpec(rets, ps, len);
    forall c | c in PresentReturns(rets, ps, len)
      ensures AboveMinusOne(c.series) && (len > 0 ==> c.series[0] == 0.0)
    {
      var i :| 0 <= i < |ps| && ColumnFrom(rets, ps[i], len, c);
      forall t | 0 <= t < len ensures c.series[t] > -1.0 {
        WeightedSumAboveMinusOne(rets, ps[i].portfolio, t);
      }
      if len > 0 {
        WeightedSumOfZeroRow(rets, ps[i].portfolio.assets, 0);
      }
    }
  }

  /**
   * With an admissible configuration and at least one portfolio column, no
   * portfolio is picked during the first `n` days and one is picked on every
   * later day.
   */
  lemma SignalWarmUp(e: Engine, ps: seq<NamedPortfolio>, n: nat, t: nat)
    requires Valid(e) && AllAdmissible(ps) && t < Days(e)
    requires exists j :: 0 <= j < |ps| && AnyPresent(e.dailyReturns, ps[j].portfolio.assets)
    ensures Rect(e.dailyReturns, Days(e))
    ensures Signal(PresentReturns(e.dailyReturns, ps, Days(e)), n, Days(e))[t].None? <==> t < n
  {
    PortfolioColumnsAboveMinusOne(e, ps);
    var rets, len := e.dailyReturns, Days(e);
    var cs := PresentReturns(rets, ps, len);
    var j :| 0 <= j < |ps| && AnyPresent(rets, ps[j].portfolio.assets);
    ColumnExists(rets, ps, len, j);
    var row := MomentumRow(cs, n, len, t);
    forall k | 0 <= k < |cs| ensures row[k].Some? <==> t >= n {
      assert cs[k] in cs;
      NDayDefined(cs[k].series, n, t);
    }
    var sig := Signal(cs, n, len);
    assert sig[t] == IdxMax(ColumnKeys(cs), row);
    if t >= n {
      assert row[0].Some?;
    }
  }

  /**
   * The strategy's daily returns under an admissible configuration: 0 on the
   * first day and above -1 on every day, which is what the metrics need.
   */
  lemma StrategyReturnsAboveMinusOne(e: Engine, ps: seq<NamedPortfolio>, n: nat)
    requires Valid(e) && AllAdmissible(ps)
    ensures Rect(e.dailyReturns, Days(e))
    ensures var cs := PresentReturns(e.dailyReturns, ps, Days(e));
      var sr := StrategyReturns(cs, Shift(Signal(cs, n, Days(e))), Days(e));
      AboveMinusOne(sr) && (Days(e) > 0 ==> sr[0] == 0.0)
  {
    PortfolioColumnsAboveMinusOne(e, ps);
    var cs := PresentReturns(e.dailyReturns, ps, Days(e));
    var active := Shift(Signal(cs, n, Days(e)));
    var sr := StrategyReturns(cs, active, Days(e));
    forall t | 0 <= t < Days(e) ensures sr[t] > -1.0 {
      if active[t].Some? && FindColumn(cs, active[t].value).Some? {
        var j := FindColumn(cs, active[t].value).value;
        assert cs[j] in cs;
      }
    }
  }

  // ---------------------------------------------------------------------------
  // Performance metrics
  // ---------------------------------------------------------------------------

  const TradingDays: real := 252.0
  const RiskFreeRate: real := 0.02

  /**
   * The metrics dictionary. Volatility is the sample standard deviation, so
   * it is NaN (`None`) for a one-day series, and the Sharpe ratio with it.
   */
  datatype Metrics = Metrics(
    totalReturn: real,
    annualizedReturn: real,
    sharpeRatio: Option<real>,
    maxDrawdown: real,
    volatility: Option<real>)

  /** `dropna()`: the defined values, in order. */
  function DropNA(xs: seq<Option<real>>): (r: seq<real>)
    ensures |r| <= |xs|
    ensures |r| == 0 <==> forall i :: 0 <= i < |xs| ==> xs[i].None?
    ensures forall x :: x in r ==> Some(x) in xs
  {
    if xs == [] then []
    else
      var init, last := DropNA(xs[..|xs| - 1]), xs[|xs| - 1];
      assert forall i :: 0 <= i < |xs| - 1 ==> xs[..|xs| - 1][i] == xs[i];
      if last.Some? then init + [last.value] else init
  }

  predicate DefinedAboveMinusOne(xs: seq<Option<real>>) {
    forall i :: 0 <= i < |xs| && xs[i].Some? ==> xs[i].value > -1.0
  }

  function Sum(xs: seq<real>): real {
    if xs == [] then 0.0 else Sum(xs[..|xs| - 1]) + xs[|xs| - 1]
  }

  function Mean(xs: seq<real>): real
    requires |xs| > 0
  {
    Sum(xs) / |xs| as real
  }

  /** The sample variance (`ddof=1`), defined from two values on. */
  function SampleVariance(xs: seq<real>): real
    requires |xs| >= 2
  {
    var m := Mean(xs);
    Sum(seq(|xs|, i requires 0 <= i < |xs| => (xs[i] - m) * (xs[i] - m))) / (|xs| - 1) as real
  }

  /** `cummax()` at the last position: the largest value so far. */
  function Peak(w: seq<real>): (p: real)
    requires |w| > 0
    ensures forall i :: 0 <= i < |w| ==> w[i] <= p
    ensures p in w
  {
    if |w| == 1 then w[0]
    else
      var p := Peak(w[..|w| - 1]);
      assert forall i :: 0 <= i < |w| - 1 ==> w[..|w| - 1][i] == w[i];
      if w[|w| - 1] > p then w[|w| - 1] else p
  }

  predicate AllPositive(w: seq<real>) {
    forall i :: 0 <= i < |w| ==> w[i] > 0.0
  }

  /** `(wealth - peak) / peak`, day by day. */
  function Drawdowns(w: seq<real>): (dd: seq<real>)
    requires AllPositive(w)
    ensures |dd| == |w|
  {
    seq(|w|, t requires 0 <= t < |w| =>
      var p := Peak(w[..t + 1]);
      assert p > 0.0 by {
        assert p in w[..t + 1];
        var i :| 0 <= i < t + 1 && p == w[..t + 1][i];
      }
      (w[t] - p) / p)
  }

  /** `min()` of a non-empty series. */
  function MinOf(s: seq<real>): (m: real)
    requires |s| > 0
    ensures forall i :: 0 <= i < |s| ==> m <= s[i]
    ensures m in s
  {
    if |s| == 1 then s[0]
    else
      var m := MinOf(s[..|s| - 1]);
      assert forall i :: 0 <= i < |s| - 1 ==> s[..|s| - 1][i] == s[i];
      if s[|s| - 1] < m then s[|s| - 1] else m
  }

  /** `drawdown.min()`: the deepest drawdown of the wealth curve, reached on some day. */
  function MaxDrawdown(r: seq<real>): (m: real)
    requires |r| > 0 && AboveMinusOne(r)
    ensures AllPositive(WealthIndex(r)) && forall t :: 0 <= t < |r| ==> m <= Drawdowns(WealthIndex(r))[t]
    ensures AllPositive(WealthIndex(r)) && exists t :: 0 <= t < |r| && m == Drawdowns(WealthIndex(r))[t]
  {
    WealthPositive(r);
    var dd := Drawdowns(WealthIndex(r));
    assert MinOf(dd) in dd;
    MinOf(dd)
  }

  /** No daily return after the first is negative. */
  predicate NeverFalls(r: seq<real>) {
    forall t :: 1 <= t < |r| ==> r[t] >= 0.0
  }

  /**
   * `calculate_metrics`, with the floating-point power and square root as
   * parameters: `{}` when nothing is defined, otherwise the metrics of the
   * defined returns.
   */
  function CalculateMetrics(series: seq<Option<real>>, pow: (real, real) -> real, sqrt: real -> real): (m: Option<Metrics>)
    requires DefinedAboveMinusOne(series)
    ensures m.None? <==> forall i :: 0 <= i < |series| ==> series[i].None?
    ensures m.Some? ==> |DropNA(series)| > 0 && AboveMinusOne(DropNA(series))
    ensures m.Some? ==> m.value == MetricsOf(DropNA(series), pow, sqrt)
  {
    if |series| == 0 then None
    else
      var rs := DropNA(series);
      if |rs| == 0 then None
      else
        DropNAAboveMinusOne(series);
        Some(MetricsOf(rs, pow, sqrt))
  }

  /**
   * The five metrics of a non-empty series of daily returns, each stated
   * by what it measures.
   */
  function MetricsOf(rs: seq<real>, pow: (real, real) -> real, sqrt: real -> real): (m: Metrics)
    requires |rs| > 0 && AboveMinusOne(rs)
    ensures m.totalReturn == WealthIndex(rs)[|rs| - 1] - 1.0 && m.totalReturn > -1.0
    ensures m.annualizedReturn == pow(1.0 + m.totalReturn, TradingDays / |rs| as real) - 1.0
    ensures m.maxDrawdown == MaxDrawdown(rs)
    ensures -1.0 < m.maxDrawdown <= 0.0
    ensures m.maxDrawdown == 0.0 <==> NeverFalls(rs)
    ensures m.volatility.None? <==> |rs| == 1
    ensures m.volatility.Some? ==> m.volatility.value == sqrt(SampleVariance(rs)) * sqrt(TradingDays)
    ensures m.sharpeRatio.None? <==> m.volatility.None?
    ensures m.volatility == Some(0.0) ==> m.sharpeRatio == Some(0.0)
    ensures m.volatility.Some? && m.volatility.value != 0.0 ==>
              m.sharpeRatio == Some((m.annualizedReturn - RiskFreeRate) / m.volatility.value)
  {
    var total := Growth(rs) - 1.0;
    var annRet := pow(1.0 + total, TradingDays / |rs| as real) - 1.0;
    var vol := if |rs| < 2 then None else Some(sqrt(SampleVariance(rs)) * sqrt(TradingDays));
    var sharpe := match vol
      case None => None
      case Some(v) => Some(if v != 0.0 then (annRet - RiskFreeRate) / v else 0.0);
    FinalWealth(rs);
    MaxDrawdownBounds(rs);
    MaxDrawdownZero(rs);
    Metrics(total, annRet, sharpe, MaxDrawdown(rs), vol)
  }

  /**
   * `dropna()` keeps every defined value, in order: it distributes over
   * concatenation, keeps a single defined value and drops a single NaN.
   */
  lemma {:induction false} DropNAConcat(a: seq<Option<real>>, b: seq<Option<real>>)
    ensures DropNA(a + b) == DropNA(a) + DropNA(b)
    ensures forall x :: DropNA([Some(x)]) == [x]
    ensures DropNA([None]) == []
    decreases |b|
  {
    forall x ensures DropNA([Some(x)]) == [x] {
      assert [Some(x)][..0] == [];
    }
    var none: seq<Option<real>> := [None];
    assert none[..0] == [];
    if b == [] {
      assert a + b == a;
    } else {
      var b', last := b[..|b| - 1], b[|b| - 1];
      assert (a + b)[..|a + b| - 1] == a + b';
      assert (a + b)[|a + b| - 1] == last;
      DropNAConcat(a, b');
    }
  }

  /** On a series without NaN, `dropna()` returns every value. */
  lemma {:induction false} DropNAAllDefined(xs: seq<Option<real>>)
    requires forall i :: 0 <= i < |xs| ==> xs[i].Some?
    ensures |DropNA(xs)| == |xs|
    ensures forall i :: 0 <= i < |xs| ==> DropNA(xs)[i] == xs[i].value
  {
    if xs != [] {
      var init, last := xs[..|xs| - 1], xs[|xs| - 1];
      assert xs == init + [last];
      DropNAAllDefined(init);
      DropNAConcat(init, [last]);
      var r := DropNA(init);
      assert DropNA(xs) == r + [last.value];
      forall i | 0 <= i < |xs| ensures DropNA(xs)[i] == xs[i].value {
        if i < |init| {
          assert init[i] == xs[i];
        }
      }
    }
  }

  lemma DropNAAboveMinusOne(xs: seq<Option<real>>)
    requires DefinedAboveMinusOne(xs)
    ensures AboveMinusOne(DropNA(xs))
  {
    var r := DropNA(xs);
    forall t | 0 <= t < |r| ensures r[t] > -1.0 {
      assert r[t] in r;
      var i :| 0 <= i < |xs| && xs[i] == Some(r[t]);
    }
  }

  /** `(1 + r).prod()` is the last value of `(1 + r).cumprod()`, and positive. */
  lemma FinalWealth(r: seq<real>)
    requires |r| > 0 && AboveMinusOne(r)
    ensures WealthIndex(r)[|r| - 1] == Growth(r) > 0.0
  {
    assert r[..|r|] == r;
    GrowthPositive(r);
  }

  lemma RatioBounds(w: real, p: real)
    requires 0.0 < w <= p
    ensures -1.0 < (w - p) / p <= 0.0
    ensures (w - p) / p == 0.0 <==> w == p
  {
    assert p / p == 1.0;
    assert (w - p) / p == w / p - p / p;
    assert w / p > 0.0;
  }

  /** Each day's wealth is its running peak scaled by one plus that day's drawdown. */
  lemma DrawdownScalesPeak(w: seq<real>, t: nat)
    requires AllPositive(w) && t < |w|
    ensures Peak(w[..t + 1]) > 0.0 && w[t] / Peak(w[..t + 1]) == 1.0 + Drawdowns(w)[t]
  {
    var p := Peak(w[..t + 1]);
    assert p > 0.0 by {
      var i :| 0 <= i < t + 1 && p == w[..t + 1][i];
    }
    RatioScalesBack(w[t], p);
  }

  lemma RatioScalesBack(w: real, p: real)
    requires p > 0.0
    ensures w / p == 1.0 + (w - p) / p
  {
    assert (w - p) / p == w / p - p / p;
    assert p / p == 1.0;
  }

  /** Each drawdown lies in (-1, 0], and the first one is 0. */
  lemma DrawdownBounds(w: seq<real>)
    requires AllPositive(w)
    ensures forall t :: 0 <= t < |w| ==> -1.0 < Drawdowns(w)[t] <= 0.0
    ensures forall t :: 0 <= t < |w| ==> (Drawdowns(w)[t] == 0.0 <==> w[t] == Peak(w[..t + 1]))
    ensures |w| > 0 ==> Drawdowns(w)[0] == 0.0
  {
    forall t | 0 <= t < |w|
      ensures -1.0 < Drawdowns(w)[t] <= 0.0
      ensures Drawdowns(w)[t] == 0.0 <==> w[t] == Peak(w[..t + 1])
    {
      var p := Peak(w[..t + 1]);
      assert w[..t + 1][t] == w[t];
      var i :| 0 <= i < t + 1 && p == w[..t + 1][i];
      RatioBounds(w[t], p);
    }
    if |w| > 0 {
      assert Peak(w[..1]) == w[0];
    }
  }

  /** The maximum drawdown lies in (-1, 0]. */
  lemma MaxDrawdownBounds(r: seq<real>)
    requires |r| > 0 && AboveMinusOne(r)
    ensures -1.0 < MaxDrawdown(r) <= 0.0
  {
    WealthPositive(r);
    DrawdownBounds(WealthIndex(r));
  }

  /** The running peak grows by the day's wealth when that is larger. */
  lemma PeakStep(w: seq<real>, t: nat)
    requires 0 < t < |w|
    ensures Peak(w[..t + 1]) == if w[t] > Peak(w[..t]) then w[t] else Peak(w[..t])
  {
    var p := w[..t + 1];
    assert p[..|p| - 1] == w[..t];
  }

  /** When no return after the first is negative, the wealth is its own running peak. */
  lemma {:induction false} AtPeakWhileNeverFalls(r: seq<real>, t: nat)
    requires AboveMinusOne(r) && NeverFalls(r) && t < |r|
    ensures WealthIndex(r)[t] == Peak(WealthIndex(r)[..t + 1])
  {
    var w := WealthIndex(r);
    if t == 0 {
      assert w[..1] == [w[0]];
    } else {
      AtPeakWhileNeverFalls(r, t - 1);
      PeakStep(w, t);
      WealthPositive(r);
      WealthRecurrence(r, t);
      NoLoss(w[t - 1], r[t]);
    }
  }

  lemma NoLoss(w: real, r: real)
    requires w > 0.0 && r >= 0.0
    ensures w * (1.0 + r) >= w
  {
  }

  lemma Loss(w: real, r: real)
    requires w > 0.0 && r < 0.0
    ensures w * (1.0 + r) < w
  {
  }

  /** When no return after the first is negative, every drawdown is 0. */
  lemma NoDrawdownWhileNeverFalls(r: seq<real>)
    requires AboveMinusOne(r) && NeverFalls(r)
    ensures AllPositive(WealthIndex(r))
    ensures forall t :: 0 <= t < |r| ==> Drawdowns(WealthIndex(r))[t] == 0.0
  {
    WealthPositive(r);
    DrawdownBounds(WealthIndex(r));
    forall t | 0 <= t < |r| ensures Drawdowns(WealthIndex(r))[t] == 0.0 {
      AtPeakWhileNeverFalls(r, t);
    }
  }

  /** A day that loses money is strictly below the running peak. */
  lemma DrawdownOnLoss(r: seq<real>, t: nat)
    requires AboveMinusOne(r) && 1 <= t < |r| && r[t] < 0.0
    ensures AllPositive(WealthIndex(r))
    ensures Drawdowns(WealthIndex(r))[t] < 0.0
  {
    WealthPositive(r);
    var w := WealthIndex(r);
    WealthRecurrence(r, t);
    Loss(w[t - 1], r[t]);
    var p := Peak(w[..t + 1]);
    assert w[..t + 1][t - 1] == w[t - 1];
    assert w[t] < p;
    NegativeRatio(w[t] - p, p);
  }

  lemma NegativeRatio(a: real, p: real)
    requires a < 0.0 && p > 0.0
    ensures a / p < 0.0
  {
  }

  /** The maximum drawdown is 0 exactly when no return after the first is negative. */
  lemma MaxDrawdownZero(r: seq<real>)
    requires |r| > 0 && AboveMinusOne(r)
    ensures MaxDrawdown(r) == 0.0 <==> NeverFalls(r)
  {
    WealthPositive(r);
    var dd := Drawdowns(WealthIndex(r));
    if NeverFalls(r) {
      NoDrawdownWhileNeverFalls(r);
      assert MinOf(dd) in dd;
    } else {
      var t :| 1 <= t < |r| && r[t] < 0.0;
      DrawdownOnLoss(r, t);
    }
  }
}
