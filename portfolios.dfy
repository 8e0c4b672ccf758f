/**
 * Named portfolios of weighted assets, and the daily return of a portfolio as
 * the weighted sum of the returns of those of its assets that are present.
 */
module Portfolios {
  import opened Wrappers
  import opened Frames

  type PortKey = string

  datatype Holding = Holding(asset: AssetKey, weight: real)

  /** A portfolio entry of the configuration: a display name and its asset weights, in order. */
  datatype Portfolio = Portfolio(name: string, assets: seq<Holding>)

  /** One entry of the ordered portfolio dictionary. */
  datatype NamedPortfolio = NamedPortfolio(key: PortKey, portfolio: Portfolio)

  /** A daily-return column per asset. */
  type Returns = map<AssetKey, seq<real>>

  /** Every column has `len` rows. */
  predicate Rect(rets: Returns, len: nat) {
    forall a :: a in rets ==> |rets[a]| == len
  }

  /** Row `t` exists in every column. */
  predicate HasRow(rets: Returns, t: nat) {
    forall a :: a in rets ==> t < |rets[a]|
  }

  /** What one holding adds on row `t`: its asset's return times its weight, nothing when the asset has no column. */
  function Contribution(rets: Returns, h: Holding, t: nat): real
    requires HasRow(rets, t)
  {
    if h.asset in rets then rets[h.asset][t] * h.weight else 0.0
  }

  /** The sum, over holdings whose asset has a column, of return on row `t` times weight. */
  function WeightedSum(rets: Returns, hs: seq<Holding>, t: nat): real
    requires HasRow(rets, t)
  {
    if hs == [] then 0.0
    else WeightedSum(rets, hs[..|hs| - 1], t) + Contribution(rets, hs[|hs| - 1], t)
  }

  /** The portfolio's daily-return column. */
  function PortfolioReturn(rets: Returns, hs: seq<Holding>, len: nat): (r: seq<real>)
    requires Rect(rets, len)
    ensures |r| == len
  {
    seq(len, t requires 0 <= t < len => WeightedSum(rets, hs, t))
  }

  /** Some asset of the portfolio has a return column. */
  predicate AnyPresent(rets: Returns, hs: seq<Holding>) {
    exists i :: 0 <= i < |hs| && hs[i].asset in rets
  }

  function TotalWeight(hs: seq<Holding>): real {
    if hs == [] then 0.0 else TotalWeight(hs[..|hs| - 1]) + hs[|hs| - 1].weight
  }

  predicate LongOnly(hs: seq<Holding>) {
    forall i :: 0 <= i < |hs| ==> hs[i].weight >= 0.0
  }

  /** What the target-weight contract asks of a portfolio: no short leg, weights summing to at most 1. */
  predicate Admissible(p: Portfolio) {
    LongOnly(p.assets) && TotalWeight(p.assets) <= 1.0
  }

  predicate AllAdmissible(ps: seq<NamedPortfolio>) {
    forall j :: 0 <= j < |ps| ==> Admissible(ps[j].portfolio)
  }

  function Keys(ps: seq<NamedPortfolio>): (ks: seq<PortKey>)
    ensures |ks| == |ps|
    ensures forall j :: 0 <= j < |ps| ==> ks[j] == ps[j].key
  {
    seq(|ps|, j requires 0 <= j < |ps| => ps[j].key)
  }

  /** The `assets` dictionary has each asset once. */
  predicate DistinctAssets(hs: seq<Holding>) {
    forall i, j :: 0 <= i < j < |hs| ==> hs[i].asset != hs[j].asset
  }

  /** A dictionary has each key once. */
  predicate DistinctKeys(ps: seq<NamedPortfolio>) {
    forall i, j :: 0 <= i < j < |ps| ==> ps[i].key != ps[j].key
  }

  /** Dictionary lookup `portfolios[key]`. */
  function Lookup(ps: seq<NamedPortfolio>, key: PortKey): (r: Option<Portfolio>)
    ensures r.None? <==> forall j :: 0 <= j < |ps| ==> ps[j].key != key
    ensures r.Some? ==> exists j :: 0 <= j < |ps| && ps[j].key == key && ps[j].portfolio == r.value
  {
    if ps == [] then None
    else if ps[0].key == key then Some(ps[0].portfolio)
    else
      var r := Lookup(ps[1..], key);
      assert forall j :: 1 <= j < |ps| ==> ps[j] == ps[1..][j - 1];
      r
  }

  /** With distinct keys, looking up a portfolio's own key finds that portfolio. */
  lemma LookupDistinct(ps: seq<NamedPortfolio>, j: nat)
    requires DistinctKeys(ps) && j < |ps|
    ensures Lookup(ps, ps[j].key) == Some(ps[j].portfolio)
  {
    var r := Lookup(ps, ps[j].key);
    var j' :| 0 <= j' < |ps| && ps[j'].key == ps[j].key && ps[j'].portfolio == r.value;
    assert j' == j;
  }

  /**
   * The inner loop `p_ret += daily_rets[asset] * weight` over the holdings
   * of one portfolio, remembering whether any holding had a column.
   */
  method AccumulateHoldings(rets: Returns, hs: seq<Holding>, len: nat) returns (pRet: seq<real>, valid: bool)
    requires Rect(rets, len)
    ensures |pRet| == len
    ensures forall t :: 0 <= t < len ==> pRet[t] == WeightedSum(rets, hs, t)
    ensures valid <==> AnyPresent(rets, hs)
  {
    pRet := seq(len, _ => 0.0);
    valid := false;
    var i := 0;
    while i < |hs|
      invariant 0 <= i <= |hs|
      invariant |pRet| == len
      invariant forall t :: 0 <= t < len ==> pRet[t] == WeightedSum(rets, hs[..i], t)
      invariant valid <==> AnyPresent(rets, hs[..i])
    {
      var h := hs[i];
      assert hs[..i + 1][..i] == hs[..i];
      assert hs[..i + 1][i] == h;
      if h.asset in rets {
        var col := rets[h.asset];
        pRet := seq(len, t requires 0 <= t < len => pRet[t] + col[t] * h.weight);
        valid := true;
      }
      assert AnyPresent(rets, hs[..i + 1]) <==> AnyPresent(rets, hs[..i]) || h.asset in rets;
      i := i + 1;
    }
    assert hs[..|hs|] == hs;
  }

  /** A long weight on a return above -1 never loses more than the weight itself. */
  lemma MulBounds(w: real, r: real, c: real)
    requires w >= 0.0 && r > -1.0 && c == r * w
    ensures c + w >= 0.0
    ensures w > 0.0 ==> c + w > 0.0
  {
    assert c + w == w * (r + 1.0);
    if w > 0.0 {
      MulPositive(w, r + 1.0);
    } else {
      assert w == 0.0;
    }
  }

  /** One long holding contributes a non-negative slack `term + weight`, positive once its weight is. */
  lemma HoldingSlack(rets: Returns, h: Holding, t: nat)
    requires HasRow(rets, t) && h.weight >= 0.0
    requires forall a :: a in rets ==> rets[a][t] > -1.0
    ensures Contribution(rets, h, t) + h.weight >= 0.0
    ensures h.weight > 0.0 ==> Contribution(rets, h, t) + h.weight > 0.0
  {
    if h.asset in rets {
      MulBounds(h.weight, rets[h.asset][t], Contribution(rets, h, t));
    }
  }

  /** The slack `WeightedSum + TotalWeight` of a long-only portfolio is non-negative, and positive once any weight is. */
  lemma {:induction false} WeightedSumSlack(rets: Returns, hs: seq<Holding>, t: nat)
    requires HasRow(rets, t) && LongOnly(hs)
    requires forall a :: a in rets ==> rets[a][t] > -1.0
    ensures WeightedSum(rets, hs, t) + TotalWeight(hs) >= 0.0
    ensures TotalWeight(hs) > 0.0 ==> WeightedSum(rets, hs, t) + TotalWeight(hs) > 0.0
  {
    if hs != [] {
      var init, h := hs[..|hs| - 1], hs[|hs| - 1];
      assert LongOnly(init) by {
        forall i | 0 <= i < |init| ensures init[i].weight >= 0.0 { assert init[i] == hs[i]; }
      }
      WeightedSumSlack(rets, init, t);
      HoldingSlack(rets, h, t);
      assert WeightedSum(rets, hs, t) == WeightedSum(rets, init, t) + Contribution(rets, h, t);
      assert TotalWeight(hs) == TotalWeight(init) + h.weight;
    }
  }

  /**
   * An admissible portfolio over assets that each lose less than everything
   * loses less than everything: its daily return exceeds -1.
   */
  lemma WeightedSumAboveMinusOne(rets: Returns, p: Portfolio, t: nat)
    requires HasRow(rets, t) && Admissible(p)
    requires forall a :: a in rets ==> rets[a][t] > -1.0
    ensures WeightedSum(rets, p.assets, t) > -1.0
  {
    WeightedSumSlack(rets, p.assets, t);
  }

  /** On a row where every asset return is 0 (the first row), every portfolio return is 0. */
  lemma {:induction false} WeightedSumOfZeroRow(rets: Returns, hs: seq<Holding>, t: nat)
    requires HasRow(rets, t)
    requires forall a :: a in rets ==> rets[a][t] == 0.0
    ensures WeightedSum(rets, hs, t) == 0.0
  {
    if hs != [] {
      WeightedSumOfZeroRow(rets, hs[..|hs| - 1], t);
    }
  }

  /** The weighted sum on row `t` reads row `t` of the columns and nothing else. */
  lemma {:induction false} WeightedSumSameRow(r1: Returns, r2: Returns, hs: seq<Holding>, t: nat)
    requires HasRow(r1, t) && HasRow(r2, t) && r1.Keys == r2.Keys
    requires forall a :: a in r1 ==> r1[a][t] == r2[a][t]
    ensures WeightedSum(r1, hs, t) == WeightedSum(r2, hs, t)
  {
    if hs != [] {
      WeightedSumSameRow(r1, r2, hs[..|hs| - 1], t);
    }
  }

  // ---------------------------------------------------------------------------
  // Return columns and the momentum signal
  // ---------------------------------------------------------------------------

  /** A named column of a per-portfolio table. */
  datatype PortColumn = PortColumn(key: PortKey, series: seq<real>)

  /** The keys of the columns, in order. */
  function ColumnKeys(cs: seq<PortColumn>): (ks: seq<PortKey>)
    ensures |ks| == |cs|
    ensures forall j :: 0 <= j < |cs| ==> ks[j] == cs[j].key
  {
    seq(|cs|, j requires 0 <= j < |cs| => cs[j].key)
  }

  predicate Columns(cs: seq<PortColumn>, len: nat) {
    forall j :: 0 <= j < |cs| ==> |cs[j].series| == len
  }

  /** Row `t` of the momentum table: each column's n-day return on its wealth index. */
  function MomentumRow(cs: seq<PortColumn>, n: nat, len: nat, t: nat): (row: seq<Option<real>>)
    requires Columns(cs, len) && t < len
    ensures |row| == |cs|
  {
    seq(|cs|, j requires 0 <= j < |cs| => NDayReturns(WealthIndex(cs[j].series), n)[t])
  }

  /** `idxmax(axis=1)` of the momentum table: the column with the best n-day return, per row. */
  function Signal(cs: seq<PortColumn>, n: nat, len: nat): (sig: seq<Option<PortKey>>)
    requires Columns(cs, len)
    ensures |sig| == len
  {
    seq(len, t requires 0 <= t < len => IdxMax(ColumnKeys(cs), MomentumRow(cs, n, len, t)))
  }


  /**
   * The signal on row `t` reads the columns up to row `t` and no later: two
   * tables with the same keys that agree on their first `t + 1` rows pick
   * the same portfolio on row `t`.
   */
  lemma SignalPrefix(cs1: seq<PortColumn>, cs2: seq<PortColumn>, n: nat, len1: nat, len2: nat, t: nat)
    requires Columns(cs1, len1) && Columns(cs2, len2) && t < len1 && t < len2
    requires ColumnKeys(cs1) == ColumnKeys(cs2)
    requires forall j :: 0 <= j < |cs1| ==> cs1[j].series[..t + 1] == cs2[j].series[..t + 1]
    ensures Signal(cs1, n, len1)[t] == Signal(cs2, n, len2)[t]
  {
    var row1, row2 := MomentumRow(cs1, n, len1, t), MomentumRow(cs2, n, len2, t);
    forall j | 0 <= j < |cs1| ensures row1[j] == row2[j] {
      WealthPrefix(cs1[j].series, cs2[j].series, t + 1);
      var w1, w2 := WealthIndex(cs1[j].series), WealthIndex(cs2[j].series);
      assert w1[t] == w1[..t + 1][t] && w2[t] == w2[..t + 1][t];
      if t >= n {
        assert w1[t - n] == w1[..t + 1][t - n] && w2[t - n] == w2[..t + 1][t - n];
      }
    }
    assert row1 == row2;
  }
}

