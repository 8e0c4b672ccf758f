/**
 * The grid-search optimizer: the cartesian product of the parameter grid in
 * `itertools.product` order, the score of one backtest's metrics, and the
 * search loop that keeps the first best-scoring combination and collects a
 * result row for every combination that produced metrics.
 */
module Optimize {
  import opened Wrappers

  type ParamName = string

  /** One parameter combination, `dict(zip(keys, combo))`. */
  type Params<V> = map<ParamName, V>

  /** One entry of the parameter grid: a name and the values to try, in order. */
  datatype Axis<V> = Axis(name: ParamName, values: seq<V>)

  /** A dictionary has each key once. */
  predicate DistinctNames<V>(grid: seq<Axis<V>>) {
    forall i, j :: 0 <= i < j < |grid| ==> grid[i].name != grid[j].name
  }

  function Names<V>(grid: seq<Axis<V>>): (ks: seq<ParamName>)
    ensures |ks| == |grid|
    ensures forall i :: 0 <= i < |grid| ==> ks[i] == grid[i].name
  {
    seq(|grid|, i requires 0 <= i < |grid| => grid[i].name)
  }

  function ValueLists<V>(grid: seq<Axis<V>>): (ls: seq<seq<V>>)
    ensures |ls| == |grid|
    ensures forall i :: 0 <= i < |grid| ==> ls[i] == grid[i].values
  {
    seq(|grid|, i requires 0 <= i < |grid| => grid[i].values)
  }

  // ---------------------------------------------------------------------------
  // The cartesian product
  // ---------------------------------------------------------------------------

  /** The number of combinations: the product of the list lengths. */
  function Volume<V>(lists: seq<seq<V>>): nat {
    if lists == [] then 1 else |lists[0]| * Volume(lists[1..])
  }

  /** Every head in turn, each followed by every tail in turn. */
  function Prefixed<V>(heads: seq<V>, tails: seq<seq<V>>): (r: seq<seq<V>>)
    decreases |heads|
  {
    if heads == [] then []
    else seq(|tails|, k requires 0 <= k < |tails| => [heads[0]] + tails[k]) + Prefixed(heads[1..], tails)
  }

  /** `itertools.product(*lists)`: the first list varies slowest, the last fastest. */
  function Product<V>(lists: seq<seq<V>>): seq<seq<V>>
    decreases |lists|
  {
    if lists == [] then [[]] else Prefixed(lists[0], Product(lists[1..]))
  }

  /** Multiplication by a natural number is monotone. */
  lemma {:induction false} MulLe(a: nat, b: nat, v: nat)
    requires a <= b
    ensures a * v <= b * v
    decreases b - a
  {
    if a < b {
      MulLe(a + 1, b, v);
      assert (a + 1) * v == a * v + v;
    }
  }

  /** Head `q` followed by tail `r` comes at position `q * |tails| + r` of the prefixed list. */
  lemma {:induction false} PrefixedAt<V>(heads: seq<V>, tails: seq<seq<V>>, q: nat, r: nat)
    requires q < |heads| && r < |tails|
    ensures q * |tails| + r < |Prefixed(heads, tails)|
    ensures Prefixed(heads, tails)[q * |tails| + r] == [heads[q]] + tails[r]
    decreases q
  {
    PrefixedLength(heads, tails);
    RankBelow(q, |heads|, |tails|, r);
    var m := |tails|;
    if q > 0 {
      PrefixedAt(heads[1..], tails, q - 1, r);
      assert q * m + r == m + ((q - 1) * m + r);
      assert Prefixed(heads, tails)[q * m + r] == Prefixed(heads[1..], tails)[(q - 1) * m + r];
    }
  }

  lemma {:induction false} PrefixedLength<V>(heads: seq<V>, tails: seq<seq<V>>)
    ensures |Prefixed(heads, tails)| == |heads| * |tails|
    decreases |heads|
  {
    if heads != [] {
      PrefixedLength(heads[1..], tails);
      assert |heads| * |tails| == (|heads| - 1) * |tails| + |tails|;
    }
  }

  /** The product holds `Volume` combinations. */
  lemma {:induction false} ProductLength<V>(lists: seq<seq<V>>)
    ensures |Product(lists)| == Volume(lists)
    decreases |lists|
  {
    if lists != [] {
      ProductLength(lists[1..]);
      PrefixedLength(lists[0], Product(lists[1..]));
    }
  }

  /** One position per list, each within its list. */
  predicate InBounds<V>(lists: seq<seq<V>>, c: seq<nat>) {
    |c| == |lists| && forall i :: 0 <= i < |lists| ==> c[i] < |lists[i]|
  }

  /** The values at the positions `c`. */
  function Pick<V>(lists: seq<seq<V>>, c: seq<nat>): (v: seq<V>)
    requires InBounds(lists, c)
    ensures |v| == |lists|
  {
    seq(|lists|, i requires 0 <= i < |lists| => lists[i][c[i]])
  }

  /** Where the positions `c` come in product order: a mixed-radix number, last digit fastest. */
  function Rank<V>(lists: seq<seq<V>>, c: seq<nat>): (r: nat)
    requires InBounds(lists, c)
    ensures r < Volume(lists)
    decreases |lists|
  {
    if lists == [] then 0
    else
      var rest := Rank(lists[1..], c[1..]);
      RankBelow(c[0], |lists[0]|, Volume(lists[1..]), rest);
      c[0] * Volume(lists[1..]) + rest
  }

  lemma RankBelow(d: nat, n: nat, v: nat, r: nat)
    requires d < n && r < v
    ensures d * v + r < n * v
  {
    assert d * v + r < d * v + v == (d + 1) * v;
    MulLe(d + 1, n, v);
  }

  /** `p` split by `v` into a quotient and a remainder, by repeated subtraction. */
  function Split(p: nat, v: nat): (qr: (nat, nat))
    requires v > 0
    ensures p == qr.0 * v + qr.1 && qr.1 < v
    decreases p
  {
    if p < v then (0, p)
    else
      var qr := Split(p - v, v);
      assert (qr.0 + 1) * v == qr.0 * v + v;
      (qr.0 + 1, qr.1)
  }

  /** The positions of the combination that comes at `p`, the inverse of `Rank`. */
  function Unrank<V>(lists: seq<seq<V>>, p: nat): (c: seq<nat>)
    requires p < Volume(lists)
    ensures InBounds(lists, c) && Rank(lists, c) == p
    decreases |lists|
  {
    if lists == [] then []
    else
      var v := Volume(lists[1..]);
      assert v > 0;
      var qr := Split(p, v);
      var q, r := qr.0, qr.1;
      assert q < |lists[0]| by {
        if q >= |lists[0]| {
          MulLe(|lists[0]|, q, v);
        }
      }
      var c := [q] + Unrank(lists[1..], r);
      assert c[1..] == Unrank(lists[1..], r);
      c
  }

  /** The combination at the rank of `c` is the one made of the values at positions `c`. */
  lemma {:induction false} ProductAtRank<V>(lists: seq<seq<V>>, c: seq<nat>)
    requires InBounds(lists, c)
    ensures Rank(lists, c) < |Product(lists)|
    ensures Product(lists)[Rank(lists, c)] == Pick(lists, c)
    decreases |lists|
  {
    ProductLength(lists);
    if lists != [] {
      var rest, v := lists[1..], Volume(lists[1..]);
      var tails := Product(rest);
      assert InBounds(rest, c[1..]);
      ProductAtRank(rest, c[1..]);
      ProductLength(rest);
      var r := Rank(rest, c[1..]);
      var p := Rank(lists, c);
      assert p == c[0] * v + r;
      PrefixedAt(lists[0], tails, c[0], r);
      assert Product(lists)[p] == [lists[0][c[0]]] + Pick(rest, c[1..]);
      assert Pick(lists, c) == [lists[0][c[0]]] + Pick(rest, c[1..]);
    }
  }

  /** `c` comes before `d` in lexicographic order: equal up to `i`, smaller at `i`. */
  predicate LexBefore(c: seq<nat>, d: seq<nat>, i: nat) {
    i < |c| && i < |d| && c[..i] == d[..i] && c[i] < d[i]
  }

  /** The product is in lexicographic order of positions. */
  lemma {:induction false} RankMonotone<V>(lists: seq<seq<V>>, c: seq<nat>, d: seq<nat>, i: nat)
    requires InBounds(lists, c) && InBounds(lists, d) && LexBefore(c, d, i)
    ensures Rank(lists, c) < Rank(lists, d)
    decreases i
  {
    var rest, v := lists[1..], Volume(lists[1..]);
    var rc, rd := Rank(rest, c[1..]), Rank(rest, d[1..]);
    if i == 0 {
      assert c[0] * v + rc < (c[0] + 1) * v;
      MulLe(c[0] + 1, d[0], v);
    } else {
      assert c[0] == c[..i][0] == d[..i][0] == d[0];
      assert c[1..][..i - 1] == c[..i][1..] == d[..i][1..] == d[1..][..i - 1];
      RankMonotone(rest, c[1..], d[1..], i - 1);
    }
  }

  /** Each combination takes one value from each list, in list order. */
  lemma ProductMember<V>(lists: seq<seq<V>>, p: nat)
    requires p < |Product(lists)|
    ensures |Product(lists)[p]| == |lists|
    ensures forall i :: 0 <= i < |lists| ==> Product(lists)[p][i] in lists[i]
  {
    ProductLength(lists);
    var c := Unrank(lists, p);
    ProductAtRank(lists, c);
  }

  /** A list with no values leaves nothing to combine. */
  lemma {:induction false} VolumeZero<V>(lists: seq<seq<V>>, i: nat)
    requires i < |lists| && lists[i] == []
    ensures Volume(lists) == 0
    decreases i
  {
    if i > 0 {
      VolumeZero(lists[1..], i - 1);
    }
  }

  // ---------------------------------------------------------------------------
  // Parameter combinations
  // ---------------------------------------------------------------------------

  /** `dict(zip(keys, combo))`; a repeated key keeps its last value. */
  function Zip<V>(keys: seq<ParamName>, combo: seq<V>): (m: Params<V>)
    requires |keys| == |combo|
    ensures m.Keys == set i | 0 <= i < |keys| :: keys[i]
  {
    if keys == [] then map[]
    else
      var m := Zip(keys[..|keys| - 1], combo[..|combo| - 1])[keys[|keys| - 1] := combo[|combo| - 1]];
      assert forall i :: 0 <= i < |keys| - 1 ==> keys[..|keys| - 1][i] == keys[i];
      m
  }

  /** With distinct keys, each key maps to its own value. */
  lemma {:induction false} ZipAt<V>(keys: seq<ParamName>, combo: seq<V>, i: nat)
    requires |keys| == |combo| && i < |keys|
    requires forall a, b :: 0 <= a < b < |keys| ==> keys[a] != keys[b]
    ensures keys[i] in Zip(keys, combo) && Zip(keys, combo)[keys[i]] == combo[i]
  {
    var n := |keys| - 1;
    if i < n {
      assert keys[..n][i] == keys[i] && combo[..n][i] == combo[i];
      ZipAt(keys[..n], combo[..n], i);
    }
  }

  /** `_iter_param_combinations`: one dictionary per product combination, in product order. */
  function Combinations<V>(grid: seq<Axis<V>>): (cs: seq<Params<V>>)
    ensures |cs| == Volume(ValueLists(grid))
  {
    var keys, prod := Names(grid), Product(ValueLists(grid));
    ProductLength(ValueLists(grid));
    seq(|prod|, k requires 0 <= k < |prod| =>
      ProductMember(ValueLists(grid), k);
      Zip(keys, prod[k]))
  }

  /** The number of combinations is the product of the value-list lengths. */
  lemma CombinationCount<V>(grid: seq<Axis<V>>)
    ensures |Combinations(grid)| == Volume(ValueLists(grid))
    ensures |grid| == 0 ==> Combinations(grid) == [map[]]
    ensures (exists i :: 0 <= i < |grid| && grid[i].values == []) ==> Combinations(grid) == []
  {
    if exists i :: 0 <= i < |grid| && grid[i].values == [] {
      var i :| 0 <= i < |grid| && grid[i].values == [];
      VolumeZero(ValueLists(grid), i);
    }
    if |grid| == 0 {
      assert Product(ValueLists(grid)) == [[]];
    }
  }

  /** Every combination maps each grid key, and only those, to a value of that key's list. */
  lemma CombinationDrawsFromGrid<V>(grid: seq<Axis<V>>, k: nat)
    requires DistinctNames(grid) && k < |Combinations(grid)|
    ensures Combinations(grid)[k].Keys == set i | 0 <= i < |grid| :: grid[i].name
    ensures forall i :: 0 <= i < |grid| ==> Combinations(grid)[k][grid[i].name] in grid[i].values
  {
    var lists := ValueLists(grid);
    ProductLength(lists);
    ProductMember(lists, k);
    var combo := Product(lists)[k];
    assert Combinations(grid)[k] == Zip(Names(grid), combo);
    forall i | 0 <= i < |grid| ensures Combinations(grid)[k][grid[i].name] in grid[i].values {
      ZipAt(Names(grid), combo, i);
    }
  }

  /**
   * Product order: the combination taking the values at positions `c` comes
   * at `Rank(c)`, every index has such positions, and ranks follow the
   * lexicographic order of positions (the last key varies fastest).
   */
  lemma CombinationOrder<V>(grid: seq<Axis<V>>, c: seq<nat>)
    requires DistinctNames(grid) && InBounds(ValueLists(grid), c)
    ensures Rank(ValueLists(grid), c) < |Combinations(grid)|
    ensures forall i :: 0 <= i < |grid| ==>
              Combinations(grid)[Rank(ValueLists(grid), c)][grid[i].name] == grid[i].values[c[i]]
  {
    var lists := ValueLists(grid);
    ProductAtRank(lists, c);
    var p := Rank(lists, c);
    assert Combinations(grid)[p] == Zip(Names(grid), Pick(lists, c));
    forall i | 0 <= i < |grid|
      ensures Combinations(grid)[p][grid[i].name] == grid[i].values[c[i]]
    {
      ZipAt(Names(grid), Pick(lists, c), i);
    }
  }

  // ---------------------------------------------------------------------------
  // Scoring
  // ---------------------------------------------------------------------------

  /** The sentinel score of a combination that cannot be ranked. */
  const InvalidScore: real := -999.0

  /** A drawdown at or below this magnitude makes the Calmar ratio meaningless. */
  const CalmarThreshold: real := 0.0001

  const AnnualizedReturnKey: string := "Annualized Return"
  const MaxDrawdownKey: string := "Max Drawdown"
  const SharpeRatioKey: string := "Sharpe Ratio"

  /** The `KeyError` raised when the Calmar ratio needs a metric that is missing. */
  datatype ScoreError = MissingMetric(name: string)

  function Abs(x: real): real {
    if x < 0.0 then -x else x
  }

  /** `metrics.get(key, default)`. */
  function GetOr(m: map<string, real>, key: string, default: real): real {
    if key in m then m[key] else default
  }

  /** `_compute_score` for the metric name `metric`. */
  function ComputeScore(metric: string, m: map<string, real>): Result<real, ScoreError> {
    if m == map[] then Success(InvalidScore)
    else if metric == "calmar" then
      var maxDD := Abs(GetOr(m, MaxDrawdownKey, 0.0));
      if maxDD > CalmarThreshold then
        if AnnualizedReturnKey in m then Success(m[AnnualizedReturnKey] / maxDD)
        else Failure(MissingMetric(AnnualizedReturnKey))
      else Success(InvalidScore)
    else if metric == "sharpe" then Success(GetOr(m, SharpeRatioKey, InvalidScore))
    else if metric == "return" then Success(GetOr(m, AnnualizedReturnKey, InvalidScore))
    else Success(InvalidScore)
  }

  /** Empty metrics score -999 whatever the metric, and so does an unknown metric name. */
  lemma InvalidScores(metric: string, m: map<string, real>)
    ensures m == map[] ==> ComputeScore(metric, m) == Success(InvalidScore)
    ensures metric !in {"calmar", "sharpe", "return"} ==> ComputeScore(metric, m) == Success(InvalidScore)
  {
  }

  /**
   * The Calmar score is the annualized return over the drawdown magnitude
   * when that exceeds 0.0001, -999 otherwise; only then is a missing
   * annualized return an error.
   */
  lemma CalmarScore(m: map<string, real>)
    requires m != map[]
    ensures var maxDD := Abs(GetOr(m, MaxDrawdownKey, 0.0));
      && (maxDD <= CalmarThreshold ==> ComputeScore("calmar", m) == Success(InvalidScore))
      && (maxDD > CalmarThreshold && AnnualizedReturnKey in m ==>
            ComputeScore("calmar", m) == Success(m[AnnualizedReturnKey] / maxDD))
      && (ComputeScore("calmar", m).Failure? <==> maxDD > CalmarThreshold && AnnualizedReturnKey !in m)
  {
  }

  /** Only the Calmar metric can fail. */
  lemma ScoreFailsOnlyForCalmar(metric: string, m: map<string, real>)
    requires ComputeScore(metric, m).Failure?
    ensures metric == "calmar" && m != map[] && AnnualizedReturnKey !in m
  {
  }

  /** The Sharpe and return scores are the stored metric, or -999 when it is absent. */
  lemma LookupScores(m: map<string, real>)
    requires m != map[]
    ensures ComputeScore("sharpe", m) == Success(if SharpeRatioKey in m then m[SharpeRatioKey] else InvalidScore)
    ensures ComputeScore("return", m) == Success(if AnnualizedReturnKey in m then m[AnnualizedReturnKey] else InvalidScore)
  {
  }

  // ---------------------------------------------------------------------------
  // The search
  // ---------------------------------------------------------------------------

  /** One entry of `results`: the params, the score and the metrics of one combination. */
  datatype Row<V> = Row(params: Params<V>, score: real, metrics: map<string, real>)

  /** What `run` returns: the best params (`None` before any combination) and the result rows. */
  datatype Outcome<V> = Outcome(bestParams: Option<Params<V>>, results: seq<Row<V>>)

  /** The score of every combination in turn, or the error of the first that fails. */
  function ScoresOf<V>(combos: seq<Params<V>>, metric: string, evaluate: Params<V> -> map<string, real>): (r: Result<seq<real>, ScoreError>)
    ensures r.Success? ==> |r.value| == |combos|
    decreases |combos|
  {
    if combos == [] then Success([])
    else
      match ScoresOf(combos[..|combos| - 1], metric, evaluate)
      case Failure(e) => Failure(e)
      case Success(ss) =>
        match ComputeScore(metric, evaluate(combos[|combos| - 1]))
        case Failure(e) => Failure(e)
        case Success(s) => Success(ss + [s])
  }

  /** The result rows: one per combination whose metrics are non-empty, in order. */
  function Rows<V>(combos: seq<Params<V>>, scores: seq<real>, evaluate: Params<V> -> map<string, real>): (rows: seq<Row<V>>)
    requires |scores| == |combos|
    ensures |rows| <= |combos|
    decreases |combos|
  {
    if combos == [] then []
    else
      var n := |combos| - 1;
      var c := combos[n];
      Rows(combos[..n], scores[..n], evaluate) + (if evaluate(c) != map[] then [Row(c, scores[n], evaluate(c))] else [])
  }

  /** `k` is the first position of the largest score. */
  predicate IsFirstBest(ss: seq<real>, k: nat) {
    && k < |ss|
    && (forall i :: 0 <= i < |ss| ==> ss[i] <= ss[k])
    && (forall i :: 0 <= i < k ==> ss[i] < ss[k])
  }

  /**
   * Scores succeed exactly when every combination's score does, and then
   * hold each combination's score; a failure reports the first failing
   * combination.
   */
  lemma {:induction false} ScoresOfSpec<V>(combos: seq<Params<V>>, metric: string, evaluate: Params<V> -> map<string, real>)
    ensures ScoresOf(combos, metric, evaluate).Success? <==>
              forall k :: 0 <= k < |combos| ==> ComputeScore(metric, evaluate(combos[k])).Success?
    ensures ScoresOf(combos, metric, evaluate).Success? ==>
              forall k :: 0 <= k < |combos| ==>
                ScoresOf(combos, metric, evaluate).value[k] == ComputeScore(metric, evaluate(combos[k])).value
    ensures ScoresOf(combos, metric, evaluate).Failure? ==>
              exists k :: 0 <= k < |combos| && ComputeScore(metric, evaluate(combos[k])) == Failure(ScoresOf(combos, metric, evaluate).error) &&
                forall i :: 0 <= i < k ==> ComputeScore(metric, evaluate(combos[i])).Success?
    decreases |combos|
  {
    if combos != [] {
      var n := |combos| - 1;
      var init := combos[..n];
      ScoresOfSpec(init, metric, evaluate);
      assert forall k :: 0 <= k < n ==> init[k] == combos[k];
    }
  }

  /**
   * The rows are the combinations with non-empty metrics, each with its own
   * params, score and metrics: every row is one of them, and each of them
   * has its row.
   */
  lemma {:induction false} RowsSpec<V>(combos: seq<Params<V>>, scores: seq<real>, evaluate: Params<V> -> map<string, real>)
    requires |scores| == |combos|
    ensures forall row :: row in Rows(combos, scores, evaluate) ==>
              exists k :: 0 <= k < |combos| && evaluate(combos[k]) != map[] &&
                row == Row(combos[k], scores[k], evaluate(combos[k]))
    ensures forall k :: 0 <= k < |combos| && evaluate(combos[k]) != map[] ==>
              Row(combos[k], scores[k], evaluate(combos[k])) in Rows(combos, scores, evaluate)
    decreases |combos|
  {
    if combos != [] {
      var n := |combos| - 1;
      RowsSpec(combos[..n], scores[..n], evaluate);
      assert forall k :: 0 <= k < n ==> combos[..n][k] == combos[k] && scores[..n][k] == scores[k];
    }
  }

  /** Rows of a shorter run are a prefix of the rows of a longer one: rows come in iteration order. */
  lemma {:induction false} RowsInOrder<V>(combos: seq<Params<V>>, scores: seq<real>, evaluate: Params<V> -> map<string, real>, i: nat)
    requires |scores| == |combos| && i <= |combos|
    ensures Rows(combos[..i], scores[..i], evaluate) <= Rows(combos, scores, evaluate)
    decreases |combos|
  {
    if i < |combos| {
      var n := |combos| - 1;
      assert combos[..n][..i] == combos[..i] && scores[..n][..i] == scores[..i];
      RowsInOrder(combos[..n], scores[..n], evaluate, i);
    } else {
      assert combos[..i] == combos && scores[..i] == scores;
    }
  }

  /** How many combinations produced non-empty metrics. */
  function CountNonEmpty<V>(combos: seq<Params<V>>, evaluate: Params<V> -> map<string, real>): nat
    decreases |combos|
  {
    if combos == [] then 0
    else (if evaluate(combos[0]) != map[] then 1 else 0) + CountNonEmpty(combos[1..], evaluate)
  }

  lemma {:induction false} CountNonEmptyAppend<V>(combos: seq<Params<V>>, c: Params<V>, evaluate: Params<V> -> map<string, real>)
    ensures CountNonEmpty(combos + [c], evaluate) == CountNonEmpty(combos, evaluate) + (if evaluate(c) != map[] then 1 else 0)
    decreases |combos|
  {
    if combos == [] {
      assert ([] + [c])[1..] == [];
    } else {
      assert (combos + [c])[1..] == combos[1..] + [c];
      CountNonEmptyAppend(combos[1..], c, evaluate);
    }
  }

  /** There is exactly one row per combination with non-empty metrics. */
  lemma {:induction false} RowsCount<V>(combos: seq<Params<V>>, scores: seq<real>, evaluate: Params<V> -> map<string, real>)
    requires |scores| == |combos|
    ensures |Rows(combos, scores, evaluate)| == CountNonEmpty(combos, evaluate)
    decreases |combos|
  {
    if combos != [] {
      var n := |combos| - 1;
      RowsCount(combos[..n], scores[..n], evaluate);
      assert combos == combos[..n] + [combos[n]];
      CountNonEmptyAppend(combos[..n], combos[n], evaluate);
    }
  }

  /**
   * A combination with non-empty metrics has its row at the position given
   * by the number of earlier such combinations.
   */
  lemma {:induction false} RowAt<V>(combos: seq<Params<V>>, scores: seq<real>, evaluate: Params<V> -> map<string, real>, k: nat)
    requires |scores| == |combos| && k < |combos| && evaluate(combos[k]) != map[]
    ensures CountNonEmpty(combos[..k], evaluate) < |Rows(combos, scores, evaluate)|
    ensures Rows(combos, scores, evaluate)[CountNonEmpty(combos[..k], evaluate)] == Row(combos[k], scores[k], evaluate(combos[k]))
    decreases |combos|
  {
    var n := |combos| - 1;
    var init := Rows(combos[..n], scores[..n], evaluate);
    if k < n {
      assert combos[..n][k] == combos[k] && scores[..n][k] == scores[k];
      assert combos[..n][..k] == combos[..k];
      RowAt(combos[..n], scores[..n], evaluate, k);
    } else {
      assert combos[..k] == combos[..n];
      RowsCount(combos[..n], scores[..n], evaluate);
    }
  }

  /**
   * `run`: back-test every combination in product order, score it, keep a
   * row for it when it produced metrics, and keep it as the best when its
   * score beats every earlier one. The back-test of one combination is the
   * function `evaluate`.
   */
  method Run<V>(grid: seq<Axis<V>>, metric: string := "calmar", evaluate: Params<V> -> map<string, real>)
    returns (r: Result<Outcome<V>, ScoreError>)
    ensures Searched(Combinations(grid), metric, evaluate, r)
  {
    r := Search(Combinations(grid), metric, evaluate);
  }

  /**
   * What the search promises over `combos`: it fails exactly when some score
   * does, with the first failure; otherwise its rows are `Rows`, it has a
   * best exactly when there was a combination, and that best is the first
   * one with the largest score.
   */
  ghost predicate Searched<V>(combos: seq<Params<V>>, metric: string, evaluate: Params<V> -> map<string, real>,
                        r: Result<Outcome<V>, ScoreError>) {
    var scores := ScoresOf(combos, metric, evaluate);
    && (r.Failure? <==> scores.Failure?)
    && (r.Failure? ==> r.error == scores.error)
    && (r.Success? ==> r.value.results == Rows(combos, scores.value, evaluate))
    && (r.Success? ==> (r.value.bestParams.None? <==> |combos| == 0))
    && (r.Success? && r.value.bestParams.Some? ==>
          exists k: nat :: IsFirstBest(scores.value, k) && k < |combos| && r.value.bestParams.value == combos[k])
  }

  /**
   * The loop of `run` over the combinations. `best_score` starts at minus
   * infinity (`None` here), so the first combination always takes the lead.
   */
  method Search<V>(combos: seq<Params<V>>, metric: string, evaluate: Params<V> -> map<string, real>)
    returns (r: Result<Outcome<V>, ScoreError>)
    ensures Searched(combos, metric, evaluate, r)
  {
    var bestScore: Option<real> := None;
    var bestParams: Option<Params<V>> := None;
    var results: seq<Row<V>> := [];
    ghost var scores: seq<real> := [];
    ghost var best: nat := 0;
    var i := 0;
    while i < |combos|
      invariant 0 <= i <= |combos|
      invariant ScoresOf(combos[..i], metric, evaluate) == Success(scores)
      invariant |scores| == i
      invariant results == Rows(combos[..i], scores, evaluate)
      invariant bestScore.None? <==> i == 0
      invariant bestParams.None? <==> i == 0
      invariant i > 0 ==> IsFirstBest(scores, best) && bestScore == Some(scores[best]) && bestParams == Some(combos[best])
    {
      var params := combos[i];
      var metrics := evaluate(params);
      var score := ComputeScore(metric, metrics);
      assert combos[..i + 1][..i] == combos[..i];
      if score.Failure? {
        FailurePersists(combos, metric, evaluate, i + 1);
        return Failure(score.error);
      }
      var s := score.value;
      if metrics != map[] {
        results := results + [Row(params, s, metrics)];
      }
      ghost var scores' := scores + [s];
      assert scores'[..i] == scores;
      if bestScore.None? || s > bestScore.value {
        NewBest(scores, s, best);
        bestScore := Some(s);
        bestParams := Some(params);
        best := i;
      } else {
        KeepBest(scores, s, best);
      }
      scores := scores';
      i := i + 1;
    }
    assert combos[..i] == combos;
    return Success(Outcome(bestParams, results));
  }

  /** A score above the best so far (or the first score) becomes the first best. */
  lemma NewBest(scores: seq<real>, s: real, best: nat)
    requires scores == [] || (IsFirstBest(scores, best) && s > scores[best])
    ensures IsFirstBest(scores + [s], |scores|)
  {
  }

  /** A score that does not beat the best so far leaves it the first best. */
  lemma KeepBest(scores: seq<real>, s: real, best: nat)
    requires IsFirstBest(scores, best) && s <= scores[best]
    ensures IsFirstBest(scores + [s], best)
  {
  }

  /** Once the scores of a prefix fail, the scores of the whole run fail the same way. */
  lemma {:induction false} FailurePersists<V>(combos: seq<Params<V>>, metric: string, evaluate: Params<V> -> map<string, real>, i: nat)
    requires i <= |combos| && ScoresOf(combos[..i], metric, evaluate).Failure?
    ensures ScoresOf(combos, metric, evaluate) == ScoresOf(combos[..i], metric, evaluate)
    decreases |combos| - i
  {
    if i < |combos| {
      assert combos[..i + 1][..i] == combos[..i];
      FailurePersists(combos, metric, evaluate, i + 1);
    } else {
      assert combos[..i] == combos;
    }
  }
}
