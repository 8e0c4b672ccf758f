/** The configured asset universe, the four portfolios and the default backtest parameters. */
module Config {
  import opened Portfolios

  /** Asset key to exchange code; the loader keys its frames by these asset keys. */
  const AssetCodes: map<string, string> := map[
    "kc50" := "588000", "hstech" := "513130", "nasdaq" := "513100",
    "hs300" := "510300", "nikkei" := "513520", "sp500" := "513500",
    "bond30" := "511090", "dividend" := "510880", "usdbond" := "501300",
    "gold" := "518880", "cash" := "511990"
  ]

  /** The portfolio dictionary, in its insertion order. */
  const ConfiguredPortfolios: seq<NamedPortfolio> := [
    NamedPortfolio("bull_surge", Portfolio("大涨 (Bull Surge)",
      [Holding("kc50", 0.3), Holding("hstech", 0.3), Holding("nasdaq", 0.4)])),
    NamedPortfolio("slow_bull", Portfolio("慢牛 (Slow Bull)",
      [Holding("hs300", 0.4), Holding("nikkei", 0.2), Holding("sp500", 0.4)])),
    NamedPortfolio("slow_bear", Portfolio("慢熊 (Slow Bear)",
      [Holding("bond30", 0.3), Holding("dividend", 0.3), Holding("usdbond", 0.4)])),
    NamedPortfolio("panic", Portfolio("恐慌 (Panic)",
      [Holding("gold", 0.4), Holding("cash", 0.6)]))
  ]

  /** The momentum window. */
  const DefaultN: nat := 20

  /** The first backtest date, 2020-01-01. */
  const StartDate: int := 20200101

  /**
   * Every configured portfolio is long-only and fully invested (its weights
   * sum to exactly 1), its keys and its assets are distinct, and each of its
   * assets is a configured asset.
   */
  lemma ConfiguredPortfoliosFullyInvested()
    ensures |ConfiguredPortfolios| == 4
    ensures DistinctKeys(ConfiguredPortfolios)
    ensures forall j :: 0 <= j < |ConfiguredPortfolios| ==> DistinctAssets(ConfiguredPortfolios[j].portfolio.assets)
    ensures AllAdmissible(ConfiguredPortfolios)
    ensures forall j :: 0 <= j < |ConfiguredPortfolios| ==>
              TotalWeight(ConfiguredPortfolios[j].portfolio.assets) == 1.0
    ensures forall j, i :: 0 <= j < |ConfiguredPortfolios| && 0 <= i < |ConfiguredPortfolios[j].portfolio.assets| ==>
              ConfiguredPortfolios[j].portfolio.assets[i].asset in AssetCodes
  {
    ConfiguredWeights();
  }

  /** Each configured portfolio's weights are non-negative and sum to 1. */
  lemma ConfiguredWeights()
    ensures forall j :: 0 <= j < |ConfiguredPortfolios| ==>
              TotalWeight(ConfiguredPortfolios[j].portfolio.assets) == 1.0 &&
              LongOnly(ConfiguredPortfolios[j].portfolio.assets)
  {
    var ps := ConfiguredPortfolios;
    var h0, h1, h2, h3 := ps[0].portfolio.assets, ps[1].portfolio.assets, ps[2].portfolio.assets, ps[3].portfolio.assets;
    TotalWeightOfThree(h0[0], h0[1], h0[2]);
    assert h0 == [h0[0], h0[1], h0[2]];
    TotalWeightOfThree(h1[0], h1[1], h1[2]);
    assert h1 == [h1[0], h1[1], h1[2]];
    TotalWeightOfThree(h2[0], h2[1], h2[2]);
    assert h2 == [h2[0], h2[1], h2[2]];
    TotalWeightOfTwo(h3[0], h3[1]);
    assert h3 == [h3[0], h3[1]];
  }

  lemma TotalWeightOfTwo(a: Holding, b: Holding)
    ensures TotalWeight([a, b]) == a.weight + b.weight
  {
    assert [a][..0] == [];
    assert TotalWeight([a]) == a.weight;
    assert [a, b][..1] == [a];
  }

  lemma TotalWeightOfThree(a: Holding, b: Holding, c: Holding)
    ensures TotalWeight([a, b, c]) == a.weight + b.weight + c.weight
  {
    assert [a, b, c][..2] == [a, b];
    TotalWeightOfTwo(a, b);
  }
}
