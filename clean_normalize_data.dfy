/** The cleaning script of the market pipeline: dropping invalid price rows,
    min-max normalisation of the six price columns, the moving-average columns,
    and the per-symbol sliding windows of date-sorted rows. */
module CleanNormalize {
  import opened Common
  import opened MarketRows
  import opened Tokenizing

  // ---------------------------------------------------------------------------
  // clean_data

  /** The columns `clean_data` requires to be positive, in the order it reads them. */
  const PriceKeys: seq<string> := ["Open", "High", "Low", "Close", "Volume"]

  function Abs(x: real): real
  {
    if x < 0.0 then -x else x
  }

  /** The short-circuit `row[k1] <= 0 or row[k2] <= 0 or …`: Ok(false) at the first
      non-positive value, an error at a missing key reached before one, Ok(true)
      when every key is present and positive. */
  function PositiveCheck(fields: map<string, real>, keys: seq<string>): (r: Result<bool>)
    ensures r.Err? ==> r.msg == "KeyError"
  {
    if |keys| == 0 then Ok(true)
    else if keys[0] !in fields then Err("KeyError")
    else if fields[keys[0]] <= 0.0 then Ok(false)
    else PositiveCheck(fields, keys[1..])
  }

  /** The first `k` keys are present with positive values. */
  predicate PositivePrefix(fields: map<string, real>, keys: seq<string>, k: nat)
    requires k <= |keys|
  {
    forall j :: 0 <= j < k ==> keys[j] in fields && fields[keys[j]] > 0.0
  }

  /** The check passes exactly when every key is present and positive, and fails
      exactly when a key is missing and every key before it is present and
      positive. */
  lemma {:induction false} PositiveCheckMeaning(fields: map<string, real>, keys: seq<string>)
    ensures PositiveCheck(fields, keys) == Ok(true) <==>
      forall k :: 0 <= k < |keys| ==> keys[k] in fields && fields[keys[k]] > 0.0
    ensures PositiveCheck(fields, keys).Err? <==>
      exists k :: 0 <= k < |keys| && keys[k] !in fields && PositivePrefix(fields, keys, k)
  {
    if |keys| > 0 && keys[0] in fields && fields[keys[0]] > 0.0 {
      var rest := keys[1..];
      PositiveCheckMeaning(fields, rest);
      assert forall k :: 1 <= k < |keys| ==> rest[k - 1] == keys[k];
      if PositiveCheck(fields, rest).Err? {
        var k :| 0 <= k < |rest| && rest[k] !in fields && PositivePrefix(fields, rest, k);
        assert keys[k + 1] !in fields && PositivePrefix(fields, keys, k + 1);
      }
      if exists k :: 0 <= k < |keys| && keys[k] !in fields && PositivePrefix(fields, keys, k) {
        var k :| 0 <= k < |keys| && keys[k] !in fields && PositivePrefix(fields, keys, k);
        assert k > 0;
        assert rest[k - 1] !in fields && PositivePrefix(fields, rest, k - 1);
      }
    } else if |keys| > 0 && keys[0] !in fields {
      assert PositivePrefix(fields, keys, 0);
    }
  }

  /** A row `clean_data` keeps: positive prices and volume, open and close within
      [low, high], and a daily move of at most 20 % of the open. */
  predicate ValidRow(row: Row)
  {
    var f := row.fields;
    "Open" in f && "High" in f && "Low" in f && "Close" in f && "Volume" in f &&
    f["Open"] > 0.0 && f["High"] > 0.0 && f["Low"] > 0.0 && f["Close"] > 0.0 && f["Volume"] > 0.0 &&
    f["Low"] <= f["Open"] <= f["High"] && f["Low"] <= f["Close"] <= f["High"] &&
    Abs(f["Close"] - f["Open"]) / f["Open"] <= 0.20
  }

  /** The checks on one row: whether it is kept, or the KeyError a missing column
      raises. */
  function Screen(row: Row): (r: Result<bool>)
    ensures r.Ok? ==> (r.value <==> ValidRow(row))
    ensures r.Err? <==> PositiveCheck(row.fields, PriceKeys).Err?
  {
    PositiveCheckMeaning(row.fields, PriceKeys);
    match PositiveCheck(row.fields, PriceKeys)
    case Err(msg) => Err(msg)
    case Ok(positive) =>
      if !positive then Ok(false)
      else
        assert PriceKeys[0] == "Open" && PriceKeys[1] == "High" && PriceKeys[2] == "Low";
        assert PriceKeys[3] == "Close" && PriceKeys[4] == "Volume";
        var f := row.fields;
        if !(f["Low"] <= f["Open"] <= f["High"] && f["Low"] <= f["Close"] <= f["High"]) then Ok(false)
        else Ok(Abs(f["Close"] - f["Open"]) / f["Open"] <= 0.20)
  }

  /** `clean_data` over the first `n` rows: the kept rows in order, or the error
      of the first row that raises. */
  function CleanedOf(data: seq<Row>, n: nat): (r: Result<seq<Row>>)
    requires n <= |data|
  {
    if n == 0 then Ok([])
    else
      match CleanedOf(data, n - 1)
      case Err(msg) => Err(msg)
      case Ok(kept) =>
        match Screen(data[n - 1])
        case Err(msg) => Err(msg)
        case Ok(keep) => if keep then Ok(kept + [data[n - 1]]) else Ok(kept)
  }

  /** Cleaning raises exactly when some row's checks raise. */
  lemma {:induction false} CleanedFailsIff(data: seq<Row>, n: nat)
    requires n <= |data|
    ensures CleanedOf(data, n).Err? <==> exists i :: 0 <= i < n && Screen(data[i]).Err?
  {
    if n > 0 {
      CleanedFailsIff(data, n - 1);
      if CleanedOf(data, n).Err? && CleanedOf(data, n - 1).Ok? {
        assert Screen(data[n - 1]).Err?;
      }
    }
  }

  /** A successful cleaning keeps only valid rows, and every valid row as often as
      the input has it. */
  lemma {:induction false} CleanedKeepsValid(data: seq<Row>, n: nat)
    requires n <= |data|
    requires CleanedOf(data, n).Ok?
    ensures forall k :: 0 <= k < |CleanedOf(data, n).value| ==> ValidRow(CleanedOf(data, n).value[k])
    ensures forall row: Row :: ValidRow(row) ==> multiset(CleanedOf(data, n).value)[row] == multiset(data[..n])[row]
  {
    if n > 0 {
      CleanedKeepsValid(data, n - 1);
      MultisetSnoc(data[..n]);
      assert data[..n][..n - 1] == data[..n - 1];
    }
  }

  /** The valid rows of `data`, in their input order. */
  function ValidRows(data: seq<Row>): seq<Row>
  {
    if |data| == 0 then []
    else ValidRows(data[..|data| - 1]) + (if ValidRow(data[|data| - 1]) then [data[|data| - 1]] else [])
  }

  /** When no row raises, `clean_data` keeps exactly the valid rows, in order. */
  lemma {:induction false} CleanedIsValidRows(data: seq<Row>, n: nat)
    requires n <= |data|
    requires CleanedOf(data, n).Ok?
    ensures CleanedOf(data, n).value == ValidRows(data[..n])
  {
    if n > 0 {
      CleanedIsValidRows(data, n - 1);
      assert data[..n][..n - 1] == data[..n - 1];
    }
  }

  /** The rows are appended in input order: cleaning a prefix of the data gives a
      prefix of the result. */
  lemma {:induction false} CleanedPrefix(data: seq<Row>, m: nat, n: nat)
    requires m <= n <= |data|
    requires CleanedOf(data, n).Ok?
    ensures CleanedOf(data, m).Ok?
    ensures CleanedOf(data, m).value <= CleanedOf(data, n).value
    decreases n - m
  {
    if m < n {
      CleanedPrefix(data, m + 1, n);
    }
  }

  lemma {:induction false} CleanErrorStays(data: seq<Row>, i: nat, n: nat)
    requires i <= n <= |data|
    requires CleanedOf(data, i).Err?
    ensures CleanedOf(data, n) == CleanedOf(data, i)
    decreases n - i
  {
    if i < n { CleanErrorStays(data, i + 1, n); }
  }

  /** `clean_data`. The count of removed rows is only printed and is left out. */
  method CleanData(data: seq<Row>) returns (r: Result<seq<Row>>)
    ensures r == CleanedOf(data, |data|)
  {
    var cleaned: seq<Row> := [];
    var i := 0;
    while i < |data|
      invariant i <= |data|
      invariant CleanedOf(data, i) == Ok(cleaned)
    {
      var verdict := Screen(data[i]);
      if verdict.Err? {
        CleanErrorStays(data, i + 1, |data|);
        return Err(verdict.msg);
      }
      if verdict.value {
        cleaned := cleaned + [data[i]];
      }
      i := i + 1;
    }
    r := Ok(cleaned);
  }

  // ---------------------------------------------------------------------------
  // normalize_data

  /** The `{'min': …, 'max': …}` recorded for one feature. */
  datatype Bounds = Bounds(min: real, max: real)

  /** Every row holds the six feature columns (stated by position; KeysPresent
      below is the same condition for any list of keys). */
  predicate HasFeatures(data: seq<Row>)
  {
    forall i, f :: 0 <= i < |data| && 0 <= f < |FeatureKeys| ==> FeatureKeys[f] in data[i].fields
  }

  /** `[row[feature] for row in data]`. */
  function Column(data: seq<Row>, key: string): (r: seq<real>)
    requires forall i :: 0 <= i < |data| ==> key in data[i].fields
    ensures |r| == |data| && forall i :: 0 <= i < |data| ==> r[i] == data[i].fields[key]
  {
    seq(|data|, i requires 0 <= i < |data| => data[i].fields[key])
  }

  /** The recorded bounds: each feature's minimum and maximum over the data. */
  function ParamsOf(data: seq<Row>): (r: map<string, Bounds>)
    requires |data| > 0 && HasFeatures(data)
  {
    ParamsOver(data, FeatureKeys)
  }

  /** Every row holds every key of `keys`. */
  predicate KeysPresent(data: seq<Row>, keys: seq<string>)
  {
    forall i, f :: 0 <= i < |data| && f in keys ==> f in data[i].fields
  }

  lemma KeysPresentPrefix(data: seq<Row>, keys: seq<string>, k: nat)
    requires k <= |keys| && KeysPresent(data, keys)
    ensures KeysPresent(data, keys[..k])
  {
    assert forall f :: f in keys[..k] ==> f in keys;
  }

  /** The bounds of the features in `keys`. */
  function ParamsOver(data: seq<Row>, keys: seq<string>): (r: map<string, Bounds>)
    requires |data| > 0 && KeysPresent(data, keys)
  {
    map f | f in keys :: Bounds(MinOf(Column(data, f)), MaxOf(Column(data, f)))
  }

  /** Min-max scaling; a constant feature scales to 0.0. */
  function Scale(v: real, b: Bounds): real
  {
    if b.max > b.min then (v - b.min) / (b.max - b.min) else 0.0
  }

  /** A value between the bounds scales into [0, 1]. */
  lemma ScaleBounds(v: real, b: Bounds)
    requires b.min <= v <= b.max
    ensures 0.0 <= Scale(v, b) <= 1.0
  {
    if b.max > b.min {
      var d := b.max - b.min;
      assert (v - b.min) / d * d == v - b.min;
    }
  }

  /** `row.copy()` with every feature replaced by its scaled value. */
  function NormalizeRow(row: Row, params: map<string, Bounds>): Row
    requires forall f :: 0 <= f < |FeatureKeys| ==> FeatureKeys[f] in row.fields && FeatureKeys[f] in params
  {
    Row(row.symbol, row.date,
        map k | k in row.fields :: if k in FeatureKeys then Scale(row.fields[k], params[k]) else row.fields[k])
  }

  /** `normalize_data`: the scaled rows and the bounds, `(data, {})` for no data,
      or the KeyError of a row missing a feature. */
  function NormalizedOf(data: seq<Row>): Result<(seq<Row>, map<string, Bounds>)>
  {
    if |data| == 0 then Ok((data, map[]))
    else if !HasFeatures(data) then Err("KeyError")
    else
      var params := ParamsOf(data);
      Ok((seq(|data|, i requires 0 <= i < |data| => NormalizeRow(data[i], params)), params))
  }

  /** Every scaled value lies in [0, 1], is 0.0 for a constant feature, and the
      other columns and the row order are unchanged. */
  lemma NormalizedFacts(data: seq<Row>)
    ensures NormalizedOf(data).Err? <==> |data| > 0 && !HasFeatures(data)
    ensures |data| == 0 ==> NormalizedOf(data) == Ok((data, map[]))
    ensures NormalizedOf(data).Ok? ==>
      var (rows, params) := NormalizedOf(data).value;
      |rows| == |data| &&
      forall i :: 0 <= i < |data| ==>
        rows[i].symbol == data[i].symbol && rows[i].date == data[i].date &&
        rows[i].fields.Keys == data[i].fields.Keys &&
        forall k :: k in data[i].fields ==>
          (k !in FeatureKeys ==> rows[i].fields[k] == data[i].fields[k]) &&
          (k in FeatureKeys ==>
             0.0 <= rows[i].fields[k] <= 1.0 && (params[k].min == params[k].max ==> rows[i].fields[k] == 0.0))
  {
    if |data| > 0 && HasFeatures(data) {
      var params := ParamsOf(data);
      forall i, k | 0 <= i < |data| && k in data[i].fields && k in FeatureKeys
        ensures 0.0 <= Scale(data[i].fields[k], params[k]) <= 1.0
      {
        var column := Column(data, k);
        assert column[i] == data[i].fields[k];
        ScaleBounds(data[i].fields[k], params[k]);
      }
    }
  }

  /** Recording one more feature's bounds. */
  lemma ParamsStep(data: seq<Row>, keys: seq<string>, k: nat)
    requires |data| > 0 && k < |keys| && KeysPresent(data, keys[..k]) && KeysPresent(data, keys[..k + 1])
    requires forall i :: 0 <= i < |data| ==> keys[k] in data[i].fields
    ensures ParamsOver(data, keys[..k + 1]) ==
      ParamsOver(data, keys[..k])[keys[k] := Bounds(MinOf(Column(data, keys[k])), MaxOf(Column(data, keys[k])))]
  {
    assert keys[..k + 1] == keys[..k] + [keys[k]];
  }

  /** The first loop of `normalize_data`: the bounds of every feature, recorded
      one feature at a time. */
  method FeatureBounds(data: seq<Row>, features: seq<string>) returns (params: map<string, Bounds>)
    requires |data| > 0 && KeysPresent(data, features)
    ensures params == ParamsOver(data, features)
  {
    params := map[];
    var k := 0;
    KeysPresentPrefix(data, features, 0);
    while k < |features|
      invariant k <= |features| && KeysPresent(data, features[..k])
      invariant params == ParamsOver(data, features[..k])
    {
      var feature := features[k];
      assert feature in features;
      var values := Column(data, feature);
      KeysPresentPrefix(data, features, k + 1);
      ParamsStep(data, features, k);
      params := params[feature := Bounds(MinOf(values), MaxOf(values))];
      k := k + 1;
    }
    assert features[..k] == features;
  }

  /** `normalize_data`. */
  method NormalizeData(data: seq<Row>) returns (r: Result<(seq<Row>, map<string, Bounds>)>)
    ensures r == NormalizedOf(data)
  {
    if |data| == 0 {
      return Ok((data, map[]));
    }
    if !HasFeatures(data) {
      return Err("KeyError");
    }
    var params := FeatureBounds(data, FeatureKeys);
    var rows: seq<Row> := [];
    var i := 0;
    while i < |data|
      invariant i <= |data|
      invariant |rows| == i && forall j :: 0 <= j < i ==> rows[j] == NormalizeRow(data[j], params)
    {
      rows := rows + [NormalizeRow(data[i], params)];
      i := i + 1;
    }
    assert rows == seq(|data|, j requires 0 <= j < |data| => NormalizeRow(data[j], params));
    r := Ok((rows, params));
  }

  // ---------------------------------------------------------------------------
  // add_technical_indicators: the moving averages

  predicate HasClose(rows: seq<Row>)
  {
    forall i :: 0 <= i < |rows| ==> "Close" in rows[i].fields
  }

  /** The closes of rows lo .. hi − 1. */
  function Closes(rows: seq<Row>, lo: nat, hi: nat): (r: seq<real>)
    requires lo <= hi <= |rows| && HasClose(rows)
    ensures |r| == hi - lo && forall j :: 0 <= j < hi - lo ==> r[j] == rows[lo + j].fields["Close"]
  {
    seq(hi - lo, j requires 0 <= j < hi - lo => rows[lo + j].fields["Close"])
  }

  /** The `n`-row simple moving average of the closes ending at row `i`. */
  function Sma(rows: seq<Row>, i: nat, n: nat): real
    requires 0 < n <= i + 1 <= |rows| && HasClose(rows)
  {
    SumReals(Closes(rows, i + 1 - n, i + 1)) / n as real
  }

  /** A moving average lies between the least and the greatest close it averages. */
  lemma SmaBetween(rows: seq<Row>, i: nat, n: nat)
    requires 0 < n <= i + 1 <= |rows| && HasClose(rows)
    ensures MinOf(Closes(rows, i + 1 - n, i + 1)) <= Sma(rows, i, n) <= MaxOf(Closes(rows, i + 1 - n, i + 1))
  {
    var range := RangeOf(Closes(rows, i + 1 - n, i + 1));
  }

  /** The rising day-on-day changes of `closes`, in order. */
  function Gains(closes: seq<real>): (r: seq<real>)
    ensures forall k :: 0 <= k < |r| ==> r[k] > 0.0
  {
    if |closes| < 2 then []
    else
      var change := closes[|closes| - 1] - closes[|closes| - 2];
      Gains(closes[..|closes| - 1]) + (if change > 0.0 then [change] else [])
  }

  /** The sizes of the falling day-on-day changes, in order; a flat day counts
      as a loss of 0. */
  function Losses(closes: seq<real>): (r: seq<real>)
    ensures forall k :: 0 <= k < |r| ==> r[k] >= 0.0
  {
    if |closes| < 2 then []
    else
      var change := closes[|closes| - 1] - closes[|closes| - 2];
      Losses(closes[..|closes| - 1]) + (if change > 0.0 then [] else [Abs(change)])
  }

  /** Every change is either a gain or a loss. */
  lemma {:induction false} GainsLossesCount(closes: seq<real>)
    requires |closes| > 0
    ensures |Gains(closes)| + |Losses(closes)| == |closes| - 1
  {
    if |closes| >= 2 {
      GainsLossesCount(closes[..|closes| - 1]);
    }
  }

  lemma {:induction false} SumNonNegative(s: seq<real>)
    requires forall k :: 0 <= k < |s| ==> s[k] >= 0.0
    ensures SumReals(s) >= 0.0
  {
    if |s| > 0 {
      SumNonNegative(s[..|s| - 1]);
    }
  }

  /** The RSI from the gains and losses of a window: 50 unless there is both a
      gain and a loss, 100 when the losses are all flat days, otherwise
      `100 − 100 / (1 + mean gain / mean loss)`. */
  function RsiOfChanges(gains: seq<real>, losses: seq<real>): real
    requires forall k :: 0 <= k < |gains| ==> gains[k] >= 0.0
  {
    if |gains| > 0 && |losses| > 0 then
      var avgGain := SumReals(gains) / |gains| as real;
      var avgLoss := SumReals(losses) / |losses| as real;
      if avgLoss > 0.0 then
        SumNonNegative(gains);
        assert avgGain / avgLoss >= 0.0;
        100.0 - 100.0 / (1.0 + avgGain / avgLoss)
      else 100.0
    else 50.0
  }

  /** The RSI of a window of closes. */
  function RsiOf(closes: seq<real>): real
  {
    RsiOfChanges(Gains(closes), Losses(closes))
  }

  /** Extending the window by one close classifies one more change. */
  lemma ChangesStep(closes: seq<real>, j: nat)
    requires 1 <= j < |closes|
    ensures var change := closes[j] - closes[j - 1];
      Gains(closes[..j + 1]) == Gains(closes[..j]) + (if change > 0.0 then [change] else []) &&
      Losses(closes[..j + 1]) == Losses(closes[..j]) + (if change > 0.0 then [] else [Abs(change)])
  {
    PrefixOfPrefix(closes, j);
  }

  /** The RSI lies between 0 and 100. */
  lemma RsiBetween(closes: seq<real>)
    ensures 0.0 <= RsiOf(closes) <= 100.0
  {
    var gains, losses := Gains(closes), Losses(closes);
    if |gains| > 0 && |losses| > 0 {
      var avgGain := SumReals(gains) / |gains| as real;
      var avgLoss := SumReals(losses) / |losses| as real;
      if avgLoss > 0.0 {
        SumNonNegative(gains);
        var d := 1.0 + avgGain / avgLoss;
        assert d >= 1.0;
        var q := 100.0 / d;
        assert q * d == 100.0;
        assert q > 0.0;
        assert q * (d - 1.0) >= 0.0;
        assert RsiOfChanges(gains, losses) == 100.0 - q;
      }
    }
  }

  /** A window that rises every day has no losses, so the RSI is the neutral 50
      rather than 100. */
  lemma {:induction false} RisingWindowNeutral(closes: seq<real>)
    requires forall k :: 0 < k < |closes| ==> closes[k - 1] < closes[k]
    ensures Losses(closes) == [] && RsiOf(closes) == 50.0
  {
    if |closes| >= 2 {
      RisingWindowNeutral(closes[..|closes| - 1]);
    }
  }

  /** The RSI of row `i`: the 14 changes between the closes of rows i − 14 .. i. */
  function Rsi(rows: seq<Row>, i: nat): real
    requires 14 <= i < |rows| && HasClose(rows)
  {
    RsiOf(Closes(rows, i - 14, i + 1))
  }

  /** The exponential moving average the indicator loop folds over a window: it
      starts at the first close; each later close weighs `w` and the running
      average `1 − w`. */
  function Ema(closes: seq<real>, w: real): real
    requires |closes| > 0
  {
    if |closes| == 1 then closes[0]
    else closes[|closes| - 1] * w + Ema(closes[..|closes| - 1], w) * (1.0 - w)
  }

  lemma MulNonNegative(x: real, y: real)
    requires x >= 0.0 && y >= 0.0
    ensures x * y >= 0.0
  {
  }

  /** A weighted mean of two values within bounds stays within them. */
  lemma WeightedBetween(c: real, p: real, w: real, lo: real, hi: real)
    requires lo <= c <= hi && lo <= p <= hi && 0.0 < w < 1.0
    ensures lo <= c * w + p * (1.0 - w) <= hi
  {
    MulNonNegative(c - lo, w);
    MulNonNegative(hi - c, w);
    MulNonNegative(p - lo, 1.0 - w);
    MulNonNegative(hi - p, 1.0 - w);
    assert lo * w + lo * (1.0 - w) == lo;
    assert hi * w + hi * (1.0 - w) == hi;
  }

  /** With a weight strictly between 0 and 1 the average stays within any bounds
      of the closes. */
  lemma {:induction false} EmaBetween(closes: seq<real>, w: real, lo: real, hi: real)
    requires |closes| > 0 && 0.0 < w < 1.0
    requires forall k :: 0 <= k < |closes| ==> lo <= closes[k] <= hi
    ensures lo <= Ema(closes, w) <= hi
  {
    if |closes| > 1 {
      var front := closes[..|closes| - 1];
      EmaBetween(front, w, lo, hi);
      WeightedBetween(closes[|closes| - 1], Ema(front, w), w, lo, hi);
    }
  }

  /** The MACD of row `i`: the 12-day average minus the 26-day average, with
      weights 2 / 13 and 2 / 27. */
  function Macd(rows: seq<Row>, i: nat): real
    requires 26 <= i < |rows| && HasClose(rows)
  {
    Ema(Closes(rows, i - 11, i + 1), 2.0 / 13.0) - Ema(Closes(rows, i - 25, i + 1), 2.0 / 27.0)
  }

  /** The MACD is at most the spread of the last 26 closes in size. */
  lemma MacdBounded(rows: seq<Row>, i: nat)
    requires 26 <= i < |rows| && HasClose(rows)
    ensures var c := Closes(rows, i - 25, i + 1);
      MinOf(c) - MaxOf(c) <= Macd(rows, i) <= MaxOf(c) - MinOf(c)
  {
    var c := Closes(rows, i - 25, i + 1);
    var c12 := Closes(rows, i - 11, i + 1);
    forall k | 0 <= k < |c12|
      ensures MinOf(c) <= c12[k] <= MaxOf(c)
    {
      assert c12[k] == c[14 + k];
    }
    EmaBetween(c12, 2.0 / 13.0, MinOf(c), MaxOf(c));
    EmaBetween(c, 2.0 / 27.0, MinOf(c), MaxOf(c));
  }

  /** The columns the indicator loop writes. */
  const IndicatorKeys: set<string> := {"SMA_20", "SMA_50", "RSI", "MACD"}

  /** The moving-average columns of the row at position `|closes| − 1`: SMA_20
      from the twentieth row on, SMA_50 from the fiftieth. */
  function WithSma(f: map<string, real>, closes: seq<real>): map<string, real>
    requires |closes| > 0
  {
    var i := |closes| - 1;
    var f20 := if i >= 19 then f["SMA_20" := SumReals(closes[i - 19..]) / 20.0] else f;
    if i >= 49 then f20["SMA_50" := SumReals(closes[i - 49..]) / 50.0] else f20
  }

  /** The RSI column, from the fifteenth row on. */
  function WithRsi(f: map<string, real>, closes: seq<real>): map<string, real>
    requires |closes| > 0
  {
    var i := |closes| - 1;
    if i >= 14 then f["RSI" := RsiOf(closes[i - 14..])] else f
  }

  /** The MACD column, from the twenty-seventh row on. */
  function WithMacd(f: map<string, real>, closes: seq<real>): map<string, real>
    requires |closes| > 0
  {
    var i := |closes| - 1;
    if i >= 26 then f["MACD" := Ema(closes[i - 11..], 2.0 / 13.0) - Ema(closes[i - 25..], 2.0 / 27.0)] else f
  }

  /** A row with its indicators, from the closes of the rows up to and including
      it. */
  function IndicateOver(row: Row, closes: seq<real>): Row
    requires |closes| > 0
  {
    Row(row.symbol, row.date, WithMacd(WithRsi(WithSma(row.fields, closes), closes), closes))
  }

  /** Row `i` of the date-sorted data with its indicators. */
  function Indicate(rows: seq<Row>, i: nat): Row
    requires i < |rows| && HasClose(rows)
  {
    IndicateOver(rows[i], Closes(rows, 0, i + 1))
  }

  /** The trailing closes of the first `i + 1` rows are those of the last rows. */
  lemma ClosesSuffix(rows: seq<Row>, i: nat, lo: nat)
    requires lo <= i < |rows| && HasClose(rows)
    ensures Closes(rows, 0, i + 1)[lo..] == Closes(rows, lo, i + 1)
  {
  }

  /** The close itself is left as it was. */
  lemma IndicateKeepsClose(rows: seq<Row>, i: nat)
    requires i < |rows| && HasClose(rows)
    ensures "Close" in Indicate(rows, i).fields && Indicate(rows, i).fields["Close"] == rows[i].fields["Close"]
  {
  }

  /** Row `i` gains SMA_20 from the twentieth row on and SMA_50 from the
      fiftieth. */
  lemma IndicateSmaFacts(rows: seq<Row>, i: nat)
    requires i < |rows| && HasClose(rows)
    ensures i >= 19 ==> "SMA_20" in Indicate(rows, i).fields && Indicate(rows, i).fields["SMA_20"] == Sma(rows, i, 20)
    ensures i >= 49 ==> "SMA_50" in Indicate(rows, i).fields && Indicate(rows, i).fields["SMA_50"] == Sma(rows, i, 50)
  {
    if i >= 19 {
      ClosesSuffix(rows, i, i - 19);
    }
    if i >= 49 {
      ClosesSuffix(rows, i, i - 49);
    }
    assert "SMA_20" != "SMA_50" by { assert "SMA_20"[4] != "SMA_50"[4]; }
  }

  /** Row `i` gains its RSI from the fifteenth row on. */
  lemma IndicateRsiFacts(rows: seq<Row>, i: nat)
    requires i < |rows| && HasClose(rows)
    ensures i >= 14 ==> "RSI" in Indicate(rows, i).fields && Indicate(rows, i).fields["RSI"] == Rsi(rows, i)
  {
    if i >= 14 {
      var closes := Closes(rows, 0, i + 1);
      ClosesSuffix(rows, i, i - 14);
      var fr := WithRsi(WithSma(rows[i].fields, closes), closes);
      assert fr["RSI"] == Rsi(rows, i);
    }
  }

  /** Row `i` gains its MACD from the twenty-seventh row on. */
  lemma IndicateMacdFacts(rows: seq<Row>, i: nat)
    requires i < |rows| && HasClose(rows)
    ensures i >= 26 ==> "MACD" in Indicate(rows, i).fields && Indicate(rows, i).fields["MACD"] == Macd(rows, i)
  {
    if i >= 26 {
      ClosesSuffix(rows, i, i - 11);
      ClosesSuffix(rows, i, i - 25);
    }
  }

  /** Row `i` keeps its symbol, its date and every column other than the
      indicators; before the fifteenth row it is unchanged. */
  lemma IndicateKeepsOthers(rows: seq<Row>, i: nat)
    requires i < |rows| && HasClose(rows)
    ensures Indicate(rows, i).symbol == rows[i].symbol && Indicate(rows, i).date == rows[i].date
    ensures forall k :: k in rows[i].fields && k !in IndicatorKeys ==>
      k in Indicate(rows, i).fields && Indicate(rows, i).fields[k] == rows[i].fields[k]
    ensures i < 14 ==> Indicate(rows, i) == rows[i]
  {
  }

  /** The date-sorted rows, each with its moving averages. */
  function Indicated(rows: seq<Row>): seq<Row>
    requires HasClose(rows)
  {
    seq(|rows|, i requires 0 <= i < |rows| => Indicate(rows, i))
  }

  /** Sorting keeps the rows, so every sorted row still has a close. */
  lemma SortKeepsClose(rows: seq<Row>)
    requires HasClose(rows)
    ensures HasClose(SortByDate(rows))
  {
    var sorted := SortByDate(rows);
    SortByDateSorts(rows);
    forall i | 0 <= i < |sorted| ensures "Close" in sorted[i].fields {
      assert sorted[i] in multiset(rows);
    }
  }

  /** The averages of row `i` depend only on that row and the closes up to it. */
  lemma IndicateSameCloses(a: seq<Row>, b: seq<Row>, i: nat)
    requires HasClose(a) && HasClose(b) && |a| == |b| && i < |a| && a[i] == b[i]
    requires forall k :: 0 <= k <= i ==> a[k].fields["Close"] == b[k].fields["Close"]
    ensures Indicate(a, i) == Indicate(b, i)
  {
    SameClosesWindow(a, b, 0, i + 1);
  }

  lemma SameClosesWindow(a: seq<Row>, b: seq<Row>, lo: nat, hi: nat)
    requires HasClose(a) && HasClose(b) && lo <= hi <= |a| == |b|
    requires forall k :: lo <= k < hi ==> a[k].fields["Close"] == b[k].fields["Close"]
    ensures Closes(a, lo, hi) == Closes(b, lo, hi)
  {
  }

  /** The array part-way through the indicator loop: rows before `i` updated,
      the others as sorted. */
  function PartlyIndicated(rows: seq<Row>, i: nat): seq<Row>
    requires i <= |rows| && HasClose(rows)
  {
    Indicated(rows)[..i] + rows[i..]
  }

  /** The part-way array keeps every row's close. */
  lemma PartlyKeepsCloses(rows: seq<Row>, i: nat)
    requires i <= |rows| && HasClose(rows)
    ensures HasClose(PartlyIndicated(rows, i))
    ensures forall k :: 0 <= k < |rows| ==> PartlyIndicated(rows, i)[k].fields["Close"] == rows[k].fields["Close"]
  {
    var m := PartlyIndicated(rows, i);
    forall k | 0 <= k < |rows|
      ensures "Close" in m[k].fields && m[k].fields["Close"] == rows[k].fields["Close"]
    {
      if k < i {
        assert m[k] == Indicate(rows, k);
        IndicateKeepsClose(rows, k);
      } else {
        assert m[k] == rows[k];
      }
    }
  }

  /** Replacing row `i` by its indicated form moves the boundary one row on. */
  lemma PartlyAdvances(rows: seq<Row>, i: nat)
    requires i < |rows| && HasClose(rows)
    ensures PartlyIndicated(rows, i)[i := Indicate(rows, i)] == PartlyIndicated(rows, i + 1)
  {
  }

  /** Updating row `i` of the part-way array from its own closes gives the
      part-way array one row further on. */
  lemma IndicateStep(rows: seq<Row>, i: nat)
    requires i < |rows| && HasClose(rows)
    ensures HasClose(PartlyIndicated(rows, i))
    ensures Indicate(PartlyIndicated(rows, i), i) == Indicate(rows, i)
    ensures PartlyIndicated(rows, i)[i := Indicate(rows, i)] == PartlyIndicated(rows, i + 1)
  {
    PartlyKeepsCloses(rows, i);
    IndicateSameCloses(PartlyIndicated(rows, i), rows, i);
    PartlyAdvances(rows, i);
  }

  /** The RSI step of the indicator loop over one window of closes: the gains and
      losses are collected change by change, then averaged. */
  method RsiAt(closes: seq<real>) returns (rsi: real)
    requires |closes| > 0
    ensures rsi == RsiOf(closes)
  {
    var gains: seq<real> := [];
    var losses: seq<real> := [];
    var j := 1;
    while j < |closes|
      invariant 1 <= j <= |closes|
      invariant gains == Gains(closes[..j]) && losses == Losses(closes[..j])
    {
      ChangesStep(closes, j);
      var change := closes[j] - closes[j - 1];
      if change > 0.0 {
        gains := gains + [change];
      } else {
        losses := losses + [Abs(change)];
      }
      j := j + 1;
    }
    FullPrefix(closes, |closes|);
    rsi := RsiOfChanges(gains, losses);
  }

  /** The EMA step of the indicator loop: the average starts at the first close
      of the window and folds in each later one. */
  method EmaAt(closes: seq<real>, w: real) returns (ema: real)
    requires |closes| > 0
    ensures ema == Ema(closes, w)
  {
    ema := closes[0];
    var j := 1;
    while j < |closes|
      invariant 1 <= j <= |closes|
      invariant ema == Ema(closes[..j], w)
    {
      PrefixOfPrefix(closes, j);
      ema := closes[j] * w + ema * (1.0 - w);
      j := j + 1;
    }
    FullPrefix(closes, |closes|);
  }

  /** The moving-average part of the indicator loop for row `i`. */
  method SmaColumns(rows: seq<Row>, i: nat, f: map<string, real>) returns (fields: map<string, real>)
    requires i < |rows| && HasClose(rows)
    ensures fields == WithSma(f, Closes(rows, 0, i + 1))
  {
    fields := f;
    if i >= 19 {
      ClosesSuffix(rows, i, i - 19);
      var window := Closes(rows, i - 19, i + 1);
      fields := fields["SMA_20" := SumReals(window) / 20.0];
    }
    if i >= 49 {
      ClosesSuffix(rows, i, i - 49);
      var window := Closes(rows, i - 49, i + 1);
      fields := fields["SMA_50" := SumReals(window) / 50.0];
    }
  }

  /** The RSI part of the indicator loop for row `i`. */
  method RsiColumn(rows: seq<Row>, i: nat, f: map<string, real>) returns (fields: map<string, real>)
    requires i < |rows| && HasClose(rows)
    ensures fields == WithRsi(f, Closes(rows, 0, i + 1))
  {
    fields := f;
    if i >= 14 {
      ClosesSuffix(rows, i, i - 14);
      var rsi := RsiAt(Closes(rows, i - 14, i + 1));
      fields := fields["RSI" := rsi];
    }
  }

  /** The MACD part of the indicator loop for row `i`. */
  method MacdColumn(rows: seq<Row>, i: nat, f: map<string, real>) returns (fields: map<string, real>)
    requires i < |rows| && HasClose(rows)
    ensures fields == WithMacd(f, Closes(rows, 0, i + 1))
  {
    fields := f;
    if i >= 26 {
      ClosesSuffix(rows, i, i - 11);
      ClosesSuffix(rows, i, i - 25);
      var ema12 := EmaAt(Closes(rows, i - 11, i + 1), 2.0 / 13.0);
      var ema26 := EmaAt(Closes(rows, i - 25, i + 1), 2.0 / 27.0);
      fields := fields["MACD" := ema12 - ema26];
    }
  }

  /** The body of the indicator loop for row `i`, reading the closes of the rows
      before it. */
  method IndicateRow(rows: seq<Row>, i: nat) returns (updated: Row)
    requires i < |rows| && HasClose(rows)
    ensures updated == Indicate(rows, i)
  {
    var row := rows[i];
    var fields := SmaColumns(rows, i, row.fields);
    fields := RsiColumn(rows, i, fields);
    fields := MacdColumn(rows, i, fields);
    updated := Row(row.symbol, row.date, fields);
  }

  /** `add_technical_indicators`: fewer than 20 rows are left alone; otherwise the
      rows are sorted by date in place and each gets its indicators. */
  method AddTechnicalIndicators(data: array<Row>)
    requires HasClose(data[..])
    modifies data
    ensures data.Length < 20 ==> data[..] == old(data[..])
    ensures data.Length >= 20 ==> HasClose(SortByDate(old(data[..])))
    ensures data.Length >= 20 ==> data[..] == Indicated(SortByDate(old(data[..])))
  {
    if data.Length < 20 {
      return;
    }
    var sorted := SortByDate(data[..]);
    SortKeepsClose(data[..]);
    forall k | 0 <= k < data.Length {
      data[k] := sorted[k];
    }
    var i := 0;
    assert data[..] == PartlyIndicated(sorted, 0);
    while i < data.Length
      invariant 0 <= i <= data.Length
      invariant data[..] == PartlyIndicated(sorted, i)
    {
      IndicateStep(sorted, i);
      var snapshot := data[..];
      var updated := IndicateRow(snapshot, i);
      data[i] := updated;
      assert data[..] == snapshot[i := updated];
      i := i + 1;
    }
    assert data[..] == Indicated(sorted);
  }

  // ---------------------------------------------------------------------------
  // create_sequences

  /** `[rows[i:i + L] for i in range(len(rows) - L + 1)]`. */
  function Windows(rows: seq<Row>, sequenceLength: int): (r: seq<seq<Row>>)
    ensures |r| == MaxInt(0, |rows| - sequenceLength + 1)
  {
    seq(MaxInt(0, |rows| - sequenceLength + 1),
        i requires 0 <= i < MaxInt(0, |rows| - sequenceLength + 1) => Slice(rows, i, i + sequenceLength))
  }

  /** The windows of each group, group after group. */
  function WindowsOfGroups(groups: seq<seq<Row>>, sequenceLength: int): seq<seq<Row>>
  {
    if |groups| == 0 then [] else Windows(groups[0], sequenceLength) + WindowsOfGroups(groups[1..], sequenceLength)
  }

  /** What `create_sequences` returns. */
  function SequencesOf(data: seq<Row>, sequenceLength: int): seq<seq<Row>>
  {
    WindowsOfGroups(Groups(data), sequenceLength)
  }

  /** The number of windows, group by group. */
  function WindowCount(groups: seq<seq<Row>>, sequenceLength: int): nat
  {
    if |groups| == 0 then 0 else MaxInt(0, |groups[0]| - sequenceLength + 1) + WindowCount(groups[1..], sequenceLength)
  }

  /** For a positive length, window `i` is the `L` rows from row `i` on. */
  lemma WindowsFacts(rows: seq<Row>, sequenceLength: int)
    requires sequenceLength >= 1
    ensures forall i :: 0 <= i < |Windows(rows, sequenceLength)| ==>
      i + sequenceLength <= |rows| && Windows(rows, sequenceLength)[i] == rows[i..i + sequenceLength]
  {
    var w := Windows(rows, sequenceLength);
    forall i | 0 <= i < |w| ensures i + sequenceLength <= |rows| && w[i] == rows[i..i + sequenceLength] {
      assert w[i] == Slice(rows, i, i + sequenceLength);
    }
  }

  /** `s` is the `|s|` rows of `rows` from row `i` on. */
  predicate WindowAt(s: seq<Row>, rows: seq<Row>, i: int)
  {
    0 <= i && i + |s| <= |rows| && s == rows[i..i + |s|]
  }

  /** `s` holds `L` consecutive rows of one of the groups. */
  ghost predicate IsWindow(s: seq<Row>, groups: seq<seq<Row>>, sequenceLength: int)
  {
    |s| == sequenceLength && exists g, i :: 0 <= g < |groups| && WindowAt(s, groups[g], i)
  }

  lemma {:induction false} WindowsOfGroupsFacts(groups: seq<seq<Row>>, sequenceLength: int)
    requires sequenceLength >= 1
    ensures |WindowsOfGroups(groups, sequenceLength)| == WindowCount(groups, sequenceLength)
    ensures forall s :: s in WindowsOfGroups(groups, sequenceLength) ==> IsWindow(s, groups, sequenceLength)
  {
    if |groups| > 0 {
      var rest := groups[1..];
      WindowsOfGroupsFacts(rest, sequenceLength);
      WindowsFacts(groups[0], sequenceLength);
      var w := Windows(groups[0], sequenceLength);
      forall s | s in WindowsOfGroups(groups, sequenceLength) ensures IsWindow(s, groups, sequenceLength) {
        if s in w {
          var i :| 0 <= i < |w| && w[i] == s;
          assert WindowAt(s, groups[0], i);
        } else {
          assert s in WindowsOfGroups(rest, sequenceLength);
          var g, i :| 0 <= g < |rest| && WindowAt(s, rest[g], i);
          assert rest[g] == groups[g + 1];
        }
      }
    }
  }

  /** A slice of a date-sorted list is date-sorted. */
  lemma ByDateSlice(rows: seq<Row>, lo: nat, hi: nat)
    requires lo <= hi <= |rows| && ByDate(rows)
    ensures ByDate(rows[lo..hi])
  {
    assert forall i :: 0 <= i < hi - lo ==> rows[lo..hi][i] == rows[lo + i];
  }

  /** A window of a group is date-sorted and holds the group's symbol. */
  lemma WindowOfGroup(s: seq<Row>, rows: seq<Row>, i: int, symbol: string)
    requires WindowAt(s, rows, i) && ByDate(rows)
    requires forall k :: 0 <= k < |rows| ==> rows[k].symbol == symbol
    ensures ByDate(s) && forall k :: 0 <= k < |s| ==> s[k].symbol == symbol
  {
    ByDateSlice(rows, i, i + |s|);
    assert forall k :: 0 <= k < |s| ==> s[k] == rows[i + k];
  }

  /** For a positive length: max(0, n − L + 1) windows per symbol, each of `L`
      consecutive date-sorted rows of a single symbol. */
  lemma SequencesFacts(data: seq<Row>, sequenceLength: int)
    requires sequenceLength >= 1
    ensures |SequencesOf(data, sequenceLength)| == WindowCount(Groups(data), sequenceLength)
    ensures forall s: seq<Row> :: s in SequencesOf(data, sequenceLength) ==>
      |s| == sequenceLength && ByDate(s) && forall k :: 0 <= k < |s| ==> s[k].symbol == s[0].symbol
  {
    var groups := Groups(data);
    WindowsOfGroupsFacts(groups, sequenceLength);
    GroupsPartition(data);
    forall s: seq<Row> | s in SequencesOf(data, sequenceLength)
      ensures |s| == sequenceLength && ByDate(s) && forall k :: 0 <= k < |s| ==> s[k].symbol == s[0].symbol
    {
      assert IsWindow(s, groups, sequenceLength);
      var g, i :| 0 <= g < |groups| && WindowAt(s, groups[g], i);
      WindowOfGroup(s, groups[g], i, Symbols(data)[g]);
    }
  }

  /** The inner loop of `create_sequences`: the windows of one group. */
  method WindowsOf(rows: seq<Row>, sequenceLength: int) returns (windows: seq<seq<Row>>)
    ensures windows == Windows(rows, sequenceLength)
  {
    windows := [];
    var i := 0;
    while i < |rows| - sequenceLength + 1
      invariant 0 <= i <= MaxInt(0, |rows| - sequenceLength + 1)
      invariant windows == Windows(rows, sequenceLength)[..i]
    {
      windows := windows + [Slice(rows, i, i + sequenceLength)];
      i := i + 1;
    }
  }

  lemma WindowsOfGroupsStep(groups: seq<seq<Row>>, g: nat, sequenceLength: int)
    requires g < |groups|
    ensures WindowsOfGroups(groups[g..], sequenceLength) ==
      Windows(groups[g], sequenceLength) + WindowsOfGroups(groups[g + 1..], sequenceLength)
  {
    assert groups[g..][1..] == groups[g + 1..];
  }

  /** `create_sequences`. The grouping dict is the function Groups; the loop over
      its entries appends each group's windows. */
  method CreateSequences(data: seq<Row>, sequenceLength: int) returns (sequences: seq<seq<Row>>)
    ensures sequences == SequencesOf(data, sequenceLength)
  {
    var groups := Groups(data);
    sequences := [];
    var g := 0;
    while g < |groups|
      invariant g <= |groups|
      invariant sequences + WindowsOfGroups(groups[g..], sequenceLength) == WindowsOfGroups(groups, sequenceLength)
    {
      var windows := WindowsOf(groups[g], sequenceLength);
      WindowsOfGroupsStep(groups, g, sequenceLength);
      assert sequences + WindowsOfGroups(groups[g..], sequenceLength) ==
        (sequences + windows) + WindowsOfGroups(groups[g + 1..], sequenceLength);
      sequences := sequences + windows;
      g := g + 1;
    }
  }
}
