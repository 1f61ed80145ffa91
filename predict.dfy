/** Inference on market sequences: turning a sequence of rows into the 512 model
    input ids, dispatching a batch of sequences to the price, volatility or volume
    predictor, mapping predictions to trading signals, and cutting test rows into
    per-symbol sequences of at most 30 rows. The model itself is a parameter. */
module Predicting {
  import opened Common
  import opened MarketRows
  import opened Tokenizing

  // ---------------------------------------------------------------------------
  // preprocess_input

  /** The model input length. */
  const InputLength := 512

  /** The parts of the tokenizer JSON that inference reads; a missing entry is
      None and takes the default `.get` gives it. */
  datatype TokenizerJson = TokenizerJson(
    featureRanges: Option<map<string, map<string, real>>>,
    featureNames: Option<seq<string>>,
    vocabSize: Option<int>)

  function RangesIn(t: TokenizerJson): map<string, map<string, real>>
  {
    if t.featureRanges.Some? then t.featureRanges.value else map[]
  }

  function NamesIn(t: TokenizerJson): seq<string>
  {
    if t.featureNames.Some? then t.featureNames.value else FeatureNames
  }

  function VocabIn(t: TokenizerJson): int
  {
    if t.vocabSize.Some? then t.vocabSize.value else 10000
  }

  /** The value scaled into the recorded range of `feature`: 0.5 for a feature
      without a range or with a constant one, a KeyError for a range entry without
      "min" or "max". */
  function NormalizedInput(ranges: map<string, map<string, real>>, feature: string, value: real): (r: Result<real>)
    ensures r.Err? <==> feature in ranges && ("min" !in ranges[feature] || "max" !in ranges[feature])
    ensures r.Ok? && feature in ranges && ranges[feature]["min"] <= value <= ranges[feature]["max"] ==>
      0.0 <= r.value <= 1.0
  {
    if feature !in ranges then Ok(0.5)
    else
      var entry := ranges[feature];
      if "min" !in entry || "max" !in entry then Err("KeyError")
      else if entry["max"] > entry["min"] then
        var d := entry["max"] - entry["min"];
        assert value <= entry["max"] ==> (value - entry["min"]) / d <= d / d;
        Ok((value - entry["min"]) / d)
      else Ok(0.5)
  }

  /** `int(normalized * (vocab_size - 100)) + 5`, clamped to [5, vocab_size − 1]
      with 5 winning when the vocabulary is smaller than 6. */
  function InputToken(normalized: real, vocabSize: int): (t: int)
    ensures t >= SpecialCount
    ensures vocabSize > SpecialCount ==> t <= vocabSize - 1
  {
    MaxInt(MinInt(Trunc(normalized * (vocabSize - 100) as real) + SpecialCount, vocabSize - 1), SpecialCount)
  }

  /** Inference quantises with a scale of vocab_size − 100 while the tokenizer that
      produced the training ids uses vocab_size − 6: with the default vocabulary a
      value at the top of its range becomes 9905 here and 9999 in training. */
  lemma InputScaleDiffersFromTraining()
    ensures InputToken(1.0, 10000) == 9905
    ensures QuantisedId(1.0, 10000) == 9999
  {
    assert Trunc(1.0 * 9900 as real) == 9900;
    assert Trunc(1.0 * 9994 as real) == 9994;
  }

  /** The token of one feature of one row: UNK for a column the row lacks. */
  function FeatureInputToken(row: Row, feature: string, ranges: map<string, map<string, real>>, vocabSize: int): (r: Result<int>)
    ensures Capitalize(feature) !in row.fields ==> r == Ok(Unk)
    ensures r.Ok? && Capitalize(feature) in row.fields ==>
      SpecialCount <= r.value && (vocabSize > SpecialCount ==> r.value <= vocabSize - 1)
    ensures r.Err? <==>
      (Capitalize(feature) in row.fields && feature in ranges && ("min" !in ranges[feature] || "max" !in ranges[feature]))
  {
    var key := Capitalize(feature);
    if key !in row.fields then Ok(Unk)
    else
      match NormalizedInput(ranges, feature, row.fields[key])
      case Err(e) => Err(e)
      case Ok(n) => Ok(InputToken(n, vocabSize))
  }

  /** The tokens of one row, feature by feature, or the first error. */
  function RowInputTokens(row: Row, names: seq<string>, ranges: map<string, map<string, real>>, vocabSize: int): (r: Result<seq<int>>)
    ensures r.Ok? ==> |r.value| == |names|
  {
    if |names| == 0 then Ok([])
    else
      match RowInputTokens(row, names[..|names| - 1], ranges, vocabSize)
      case Err(e) => Err(e)
      case Ok(init) =>
        match FeatureInputToken(row, names[|names| - 1], ranges, vocabSize)
        case Err(e) => Err(e)
        case Ok(t) => Ok(init + [t])
  }

  /** Token `f` of a row is the token of feature `f`. */
  lemma {:induction false} RowInputTokensAt(row: Row, names: seq<string>, ranges: map<string, map<string, real>>, vocabSize: int)
    requires RowInputTokens(row, names, ranges, vocabSize).Ok?
    ensures forall f :: 0 <= f < |names| ==>
      FeatureInputToken(row, names[f], ranges, vocabSize) == Ok(RowInputTokens(row, names, ranges, vocabSize).value[f])
  {
    if |names| > 0 {
      var init := names[..|names| - 1];
      RowInputTokensAt(row, init, ranges, vocabSize);
      assert forall f :: 0 <= f < |init| ==> init[f] == names[f];
    }
  }

  /** Some feature of the row has a range entry that raises. */
  ghost predicate SomeFeatureFails(row: Row, names: seq<string>, ranges: map<string, map<string, real>>, vocabSize: int)
  {
    exists f :: 0 <= f < |names| && FeatureInputToken(row, names[f], ranges, vocabSize).Err?
  }

  /** A failing row has a failing feature. */
  lemma {:induction false} RowFailureHasCause(row: Row, names: seq<string>, ranges: map<string, map<string, real>>, vocabSize: int)
    requires RowInputTokens(row, names, ranges, vocabSize).Err?
    ensures SomeFeatureFails(row, names, ranges, vocabSize)
  {
    var n := |names| - 1;
    var init := names[..n];
    if RowInputTokens(row, init, ranges, vocabSize).Err? {
      RowFailureHasCause(row, init, ranges, vocabSize);
      var f :| 0 <= f < |init| && FeatureInputToken(row, init[f], ranges, vocabSize).Err?;
      assert init[f] == names[f];
    } else {
      assert FeatureInputToken(row, names[n], ranges, vocabSize).Err?;
    }
  }

  /** A failing feature fails its row. */
  lemma FeatureFailureFailsRow(row: Row, names: seq<string>, ranges: map<string, map<string, real>>, vocabSize: int)
    requires SomeFeatureFails(row, names, ranges, vocabSize)
    ensures RowInputTokens(row, names, ranges, vocabSize).Err?
  {
    var f :| 0 <= f < |names| && FeatureInputToken(row, names[f], ranges, vocabSize).Err?;
    if RowInputTokens(row, names[..f], ranges, vocabSize).Err? {
      RowErrorStays(row, names, ranges, vocabSize, f);
    } else {
      RowTokensStep(row, names, ranges, vocabSize, f);
    }
  }

  /** A row fails exactly when one of its features does. */
  lemma RowInputTokensFail(row: Row, names: seq<string>, ranges: map<string, map<string, real>>, vocabSize: int)
    ensures RowInputTokens(row, names, ranges, vocabSize).Err? <==> SomeFeatureFails(row, names, ranges, vocabSize)
  {
    if RowInputTokens(row, names, ranges, vocabSize).Err? {
      RowFailureHasCause(row, names, ranges, vocabSize);
    }
    if SomeFeatureFails(row, names, ranges, vocabSize) {
      FeatureFailureFailsRow(row, names, ranges, vocabSize);
    }
  }

  /** The tokens of every row, one row after another, or the first error. */
  function InputBody(rows: seq<Row>, names: seq<string>, ranges: map<string, map<string, real>>, vocabSize: int): (r: Result<seq<int>>)
  {
    if |rows| == 0 then Ok([])
    else
      match InputBody(rows[..|rows| - 1], names, ranges, vocabSize)
      case Err(e) => Err(e)
      case Ok(init) =>
        match RowInputTokens(rows[|rows| - 1], names, ranges, vocabSize)
        case Err(e) => Err(e)
        case Ok(t) => Ok(init + t)
  }

  /** Some row of the body raises. */
  ghost predicate SomeRowFails(rows: seq<Row>, names: seq<string>, ranges: map<string, map<string, real>>, vocabSize: int)
  {
    exists i :: 0 <= i < |rows| && RowInputTokens(rows[i], names, ranges, vocabSize).Err?
  }

  /** The body fails exactly when some row does. */
  lemma {:induction false} InputBodyFails(rows: seq<Row>, names: seq<string>, ranges: map<string, map<string, real>>, vocabSize: int)
    ensures InputBody(rows, names, ranges, vocabSize).Err? <==> SomeRowFails(rows, names, ranges, vocabSize)
  {
    if |rows| > 0 {
      var n := |rows| - 1;
      var init := rows[..n];
      InputBodyFails(init, names, ranges, vocabSize);
      if InputBody(rows, names, ranges, vocabSize).Err? {
        if InputBody(init, names, ranges, vocabSize).Err? {
          var i :| 0 <= i < |init| && RowInputTokens(init[i], names, ranges, vocabSize).Err?;
          assert init[i] == rows[i];
        } else {
          assert RowInputTokens(rows[n], names, ranges, vocabSize).Err?;
        }
      }
      if SomeRowFails(rows, names, ranges, vocabSize) {
        var i :| 0 <= i < |rows| && RowInputTokens(rows[i], names, ranges, vocabSize).Err?;
        if i < n {
          assert init[i] == rows[i];
          assert SomeRowFails(init, names, ranges, vocabSize);
        }
      }
    }
  }

  /** A token of the input body: UNK, or a value token in [5, vocab_size − 1]. */
  predicate BodyToken(t: int, vocabSize: int)
  {
    t == Unk || (SpecialCount <= t && (vocabSize > SpecialCount ==> t <= vocabSize - 1))
  }

  lemma {:induction false} RowTokensInRange(row: Row, names: seq<string>, ranges: map<string, map<string, real>>, vocabSize: int)
    requires RowInputTokens(row, names, ranges, vocabSize).Ok?
    ensures forall k :: 0 <= k < |names| ==> BodyToken(RowInputTokens(row, names, ranges, vocabSize).value[k], vocabSize)
  {
    RowInputTokensAt(row, names, ranges, vocabSize);
  }

  /** Every body token is UNK or a value token in [5, vocab_size − 1]. */
  lemma {:induction false} InputBodyInRange(rows: seq<Row>, names: seq<string>, ranges: map<string, map<string, real>>, vocabSize: int)
    requires InputBody(rows, names, ranges, vocabSize).Ok?
    ensures forall k :: 0 <= k < |InputBody(rows, names, ranges, vocabSize).value| ==>
      BodyToken(InputBody(rows, names, ranges, vocabSize).value[k], vocabSize)
  {
    if |rows| > 0 {
      var init := rows[..|rows| - 1];
      InputBodyInRange(init, names, ranges, vocabSize);
      var last := rows[|rows| - 1];
      RowTokensInRange(last, names, ranges, vocabSize);
      var rowTokens := RowInputTokens(last, names, ranges, vocabSize).value;
      var before := InputBody(init, names, ranges, vocabSize).value;
      var body := InputBody(rows, names, ranges, vocabSize).value;
      assert body == before + rowTokens;
      forall k | 0 <= k < |body| ensures BodyToken(body[k], vocabSize) {
        if k >= |before| {
          assert body[k] == rowTokens[k - |before|];
        }
      }
    }
  }

  /** What `preprocess_input` returns once the tokenizer is loaded: CLS, the body,
      SEP, fitted to 512 ids; the empty list when a range entry raises. */
  function Preprocessed(t: TokenizerJson, rows: seq<Row>): seq<int>
  {
    match InputBody(rows, NamesIn(t), RangesIn(t), VocabIn(t))
    case Err(_) => []
    case Ok(body) => FitLength([Cls] + body + [Sep], InputLength)
  }

  /** The input has exactly 512 ids and starts with CLS; a body that fits is
      followed by SEP and PAD, a longer one is cut with SEP in the last slot. The
      empty list comes exactly from a failing body. */
  lemma PreprocessedFacts(t: TokenizerJson, rows: seq<Row>)
    ensures Preprocessed(t, rows) == [] <==> InputBody(rows, NamesIn(t), RangesIn(t), VocabIn(t)).Err?
    ensures InputBody(rows, NamesIn(t), RangesIn(t), VocabIn(t)).Ok? ==>
      var body := InputBody(rows, NamesIn(t), RangesIn(t), VocabIn(t)).value;
      var r := Preprocessed(t, rows);
      |r| == InputLength && r[0] == Cls &&
      (|body| + 2 <= InputLength ==>
         r[..|body| + 2] == [Cls] + body + [Sep] && forall k :: |body| + 2 <= k < InputLength ==> r[k] == Pad) &&
      (|body| + 2 > InputLength ==> r[..InputLength - 1] == ([Cls] + body)[..InputLength - 1] && r[InputLength - 1] == Sep)
  {
    match InputBody(rows, NamesIn(t), RangesIn(t), VocabIn(t))
    case Err(_) =>
    case Ok(body) =>
      var all := [Cls] + body + [Sep];
      FitLengthFacts(all, InputLength);
      var r := Preprocessed(t, rows);
      if |all| <= InputLength {
        assert r[..|all|] == all;
        assert r[0] == r[..|all|][0];
      } else {
        assert r[..InputLength - 1] == all[..InputLength - 1];
        assert all[..InputLength - 1] == ([Cls] + body)[..InputLength - 1];
        assert r[0] == r[..InputLength - 1][0];
      }
  }

  // ---------------------------------------------------------------------------
  // Predictions

  datatype Task = PriceTask | VolatilityTask | VolumeTask

  /** `batch_predict`'s task names. */
  function TaskNamed(name: string): Option<Task>
  {
    if name == "price" then Some(PriceTask)
    else if name == "volatility" then Some(VolatilityTask)
    else if name == "volume" then Some(VolumeTask)
    else None
  }

  /** What the model returns for a list of ids: a dict with an "error" key, or
      its outputs (a class with its confidence and name, or a level and an
      amount). */
  datatype Payload = Failed(error: string) | Output(predictedClass: int, confidence: real, className: string, level: string, amount: real)

  /** A prediction result: an error entry, or the model's output tagged with its
      `prediction_type`. `Untyped` stands for a result of any other type. */
  datatype Prediction =
    | Failure(error: string)
    | PriceMovement(predictedClass: int, confidence: real, className: string)
    | VolatilityReading(volatilityLevel: string, predictedVolatility: real)
    | VolumeReading(volumeLevel: string, predictedVolume: real)
    | Untyped(predictionType: string)

  /** `predict_price_movement`, `predict_volatility` and `predict_volume` once the
      ids are computed: an error passes through, anything else is tagged. */
  function Tagged(task: Task, p: Payload): (r: Prediction)
    ensures p.Failed? <==> r.Failure?
    ensures r.Untyped? == false
  {
    match p
    case Failed(e) => Failure(e)
    case Output(c, conf, name, level, amount) =>
      match task
      case PriceTask => PriceMovement(c, conf, name)
      case VolatilityTask => VolatilityReading(level, amount)
      case VolumeTask => VolumeReading(level, amount)
  }

  /** One sequence through its task's predictor: with no tokenizer the
      RuntimeError is caught into an error entry. */
  function PredictionFor(tokenizer: Option<TokenizerJson>, model: (seq<int>, Task) -> Payload,
                         task: Task, rows: seq<Row>): Prediction
  {
    if tokenizer.None? then Failure("Tokenizer not loaded")
    else Tagged(task, model(Preprocessed(tokenizer.value, rows), task))
  }

  /** The entry `batch_predict` records for one sequence. */
  function BatchEntry(tokenizer: Option<TokenizerJson>, model: (seq<int>, Task) -> Payload,
                      task: string, rows: seq<Row>): Prediction
  {
    if TaskNamed(task).None? then Failure("Unknown task: " + task)
    else PredictionFor(tokenizer, model, TaskNamed(task).value, rows)
  }

  /** `batch_predict` once the model is loaded: one result per sequence. */
  function BatchPredictions(tokenizer: Option<TokenizerJson>, model: (seq<int>, Task) -> Payload,
                            sequences: seq<seq<Row>>, task: string): (r: seq<Prediction>)
    ensures |r| == |sequences|
  {
    if |sequences| == 0 then []
    else
      BatchPredictions(tokenizer, model, sequences[..|sequences| - 1], task) +
      [BatchEntry(tokenizer, model, task, sequences[|sequences| - 1])]
  }

  /** Each sequence gets its own entry, in order. */
  lemma {:induction false} BatchPredictionsFacts(tokenizer: Option<TokenizerJson>, model: (seq<int>, Task) -> Payload,
                                                 sequences: seq<seq<Row>>, task: string)
    ensures forall i :: 0 <= i < |sequences| ==>
      BatchPredictions(tokenizer, model, sequences, task)[i] == BatchEntry(tokenizer, model, task, sequences[i])
  {
    if |sequences| > 0 {
      var init := sequences[..|sequences| - 1];
      var r := BatchPredictions(tokenizer, model, sequences, task);
      assert r == BatchPredictions(tokenizer, model, init, task) + [BatchEntry(tokenizer, model, task, sequences[|init|])];
      BatchPredictionsFacts(tokenizer, model, init, task);
      forall i | 0 <= i < |sequences| ensures r[i] == BatchEntry(tokenizer, model, task, sequences[i]) {
        if i < |init| {
          assert init[i] == sequences[i];
        }
      }
    }
  }

  /** An unknown task gives an error entry for every sequence, and so does a
      missing tokenizer (the caught RuntimeError). */
  lemma BatchPredictionsFail(tokenizer: Option<TokenizerJson>, model: (seq<int>, Task) -> Payload,
                             sequences: seq<seq<Row>>, task: string)
    ensures TaskNamed(task).None? ==> forall i :: 0 <= i < |sequences| ==>
      BatchPredictions(tokenizer, model, sequences, task)[i] == Failure("Unknown task: " + task)
    ensures tokenizer.None? ==> forall i :: 0 <= i < |sequences| ==>
      BatchPredictions(tokenizer, model, sequences, task)[i].Failure?
  {
    BatchPredictionsFacts(tokenizer, model, sequences, task);
  }

  /** The predictor: the loaded tokenizer JSON (None when it is missing or empty)
      and whether the model was loaded. */
  class KronosPredictor {
    var tokenizerData: Option<TokenizerJson>
    var isLoaded: bool

    constructor(tokenizerData: Option<TokenizerJson>, isLoaded: bool)
      ensures this.tokenizerData == tokenizerData && this.isLoaded == isLoaded
    {
      this.tokenizerData := tokenizerData;
      this.isLoaded := isLoaded;
    }

    /** `preprocess_input`: the RuntimeError without a tokenizer, otherwise the
        ids built token by token. */
    method PreprocessInput(rows: seq<Row>) returns (r: Result<seq<int>>)
      ensures tokenizerData.None? ==> r == Err("Tokenizer not loaded")
      ensures tokenizerData.Some? ==> r == Ok(Preprocessed(tokenizerData.value, rows))
    {
      if tokenizerData.None? {
        return Err("Tokenizer not loaded");
      }
      var t := tokenizerData.value;
      var ranges, names, vocabSize := RangesIn(t), NamesIn(t), VocabIn(t);
      var body: seq<int> := [];
      var i := 0;
      while i < |rows|
        invariant i <= |rows|
        invariant InputBody(rows[..i], names, ranges, vocabSize) == Ok(body)
      {
        var rowTokens := TokensOfRow(rows[i], names, ranges, vocabSize);
        if rowTokens.Err? {
          BodyErrorStays(rows, names, ranges, vocabSize, i);
          return Ok([]);
        }
        assert rows[..i + 1][..i] == rows[..i];
        body := body + rowTokens.value;
        i := i + 1;
      }
      assert rows[..i] == rows;
      var tokens := [Cls] + body + [Sep];
      if |tokens| > InputLength {
        tokens := tokens[..InputLength - 1] + [Sep];
      } else {
        tokens := tokens + Zeros(InputLength - |tokens|);
      }
      r := Ok(tokens);
    }

    /** `batch_predict`: a RuntimeError when the model is not loaded, otherwise one
        result per sequence. */
    method BatchPredict(sequences: seq<seq<Row>>, task: string, model: (seq<int>, Task) -> Payload)
      returns (r: Result<seq<Prediction>>)
      ensures !isLoaded ==> r == Err("Model not loaded")
      ensures isLoaded ==> r == Ok(BatchPredictions(tokenizerData, model, sequences, task))
    {
      if !isLoaded {
        return Err("Model not loaded");
      }
      var results: seq<Prediction> := [];
      var i := 0;
      while i < |sequences|
        invariant i <= |sequences|
        invariant results == BatchPredictions(tokenizerData, model, sequences[..i], task)
      {
        var result: Prediction;
        var named := TaskNamed(task);
        if named.None? {
          result := Failure("Unknown task: " + task);
        } else {
          var ids := PreprocessInput(sequences[i]);
          if ids.Err? {
            result := Failure(ids.msg);
          } else {
            result := Tagged(named.value, model(ids.value, named.value));
          }
        }
        assert sequences[..i + 1][..i] == sequences[..i];
        results := results + [result];
        i := i + 1;
      }
      assert sequences[..i] == sequences;
      r := Ok(results);
    }
  }

  /** The inner loop of `preprocess_input`: the tokens of one row, feature by
      feature, stopping at the first feature that raises. */
  method TokensOfRow(row: Row, names: seq<string>, ranges: map<string, map<string, real>>, vocabSize: int)
    returns (r: Result<seq<int>>)
    ensures r.Ok? ==> r == RowInputTokens(row, names, ranges, vocabSize)
    ensures r.Err? ==> RowInputTokens(row, names, ranges, vocabSize).Err?
  {
    var j := 0;
    var rowTokens: seq<int> := [];
    while j < |names|
      invariant j <= |names|
      invariant RowInputTokens(row, names[..j], ranges, vocabSize) == Ok(rowTokens)
    {
      var token := FeatureInputToken(row, names[j], ranges, vocabSize);
      RowTokensStep(row, names, ranges, vocabSize, j);
      if token.Err? {
        return Err(token.msg);
      }
      rowTokens := rowTokens + [token.value];
      j := j + 1;
    }
    assert names[..j] == names;
    r := Ok(rowTokens);
  }

  /** One more feature: a failing feature fails the whole row, a good one
      extends the prefix's tokens. */
  lemma RowTokensStep(row: Row, names: seq<string>, ranges: map<string, map<string, real>>, vocabSize: int, j: nat)
    requires j < |names| && RowInputTokens(row, names[..j], ranges, vocabSize).Ok?
    ensures FeatureInputToken(row, names[j], ranges, vocabSize).Err? ==> RowInputTokens(row, names, ranges, vocabSize).Err?
    ensures FeatureInputToken(row, names[j], ranges, vocabSize).Ok? ==>
      RowInputTokens(row, names[..j + 1], ranges, vocabSize) ==
      Ok(RowInputTokens(row, names[..j], ranges, vocabSize).value + [FeatureInputToken(row, names[j], ranges, vocabSize).value])
  {
    assert names[..j + 1][..j] == names[..j];
    if FeatureInputToken(row, names[j], ranges, vocabSize).Err? {
      RowErrorStays(row, names, ranges, vocabSize, j + 1);
    }
  }

  lemma {:induction false} RowErrorStays(row: Row, names: seq<string>, ranges: map<string, map<string, real>>,
                                         vocabSize: int, j: nat)
    requires j <= |names| && RowInputTokens(row, names[..j], ranges, vocabSize).Err?
    ensures RowInputTokens(row, names, ranges, vocabSize).Err?
    decreases |names| - j
  {
    if j < |names| {
      assert names[..j + 1][..j] == names[..j];
      RowErrorStays(row, names, ranges, vocabSize, j + 1);
    } else {
      assert names[..j] == names;
    }
  }

  lemma {:induction false} BodyErrorStays(rows: seq<Row>, names: seq<string>, ranges: map<string, map<string, real>>,
                                          vocabSize: int, i: nat)
    requires i < |rows| && RowInputTokens(rows[i], names, ranges, vocabSize).Err?
    ensures InputBody(rows, names, ranges, vocabSize).Err?
  {
    assert SomeRowFails(rows, names, ranges, vocabSize);
    InputBodyFails(rows, names, ranges, vocabSize);
  }

  // ---------------------------------------------------------------------------
  // generate_trading_signals

  /** One trading signal; `sequenceId` is the index of its prediction. */
  datatype Signal =
    | ErrorSignal(sequenceId: nat, confidence: real, reason: string)
    | TradeSignal(sequenceId: nat, action: string, confidence: real, predictedClass: int, className: string)
    | LevelSignal(sequenceId: nat, action: string, level: string, amount: real)

  function SignalName(s: Signal): string
  {
    match s
    case ErrorSignal(_, _, _) => "ERROR"
    case TradeSignal(_, action, _, _, _) => action
    case LevelSignal(_, action, _, _) => action
  }

  /** Class 2 (up) buys, class 0 (down) sells, anything else holds. */
  function Action(predictedClass: int): string
  {
    if predictedClass == 2 then "BUY" else if predictedClass == 0 then "SELL" else "HOLD"
  }

  /** The signal of prediction `i`, or none for a prediction of another type. */
  function SignalOf(i: nat, p: Prediction): Option<Signal>
  {
    match p
    case Failure(e) => Some(ErrorSignal(i, 0.0, e))
    case PriceMovement(c, conf, name) => Some(TradeSignal(i, Action(c), conf, c, name))
    case VolatilityReading(level, amount) =>
      Some(LevelSignal(i, if level == "high" then "HIGH_VOLATILITY" else "LOW_VOLATILITY", level, amount))
    case VolumeReading(level, amount) =>
      Some(LevelSignal(i, if level == "high" then "HIGH_VOLUME" else "LOW_VOLUME", level, amount))
    case Untyped(_) => None
  }

  /** The signal mapping: an error entry gives ERROR at confidence 0.0, a price
      movement BUY, SELL or HOLD by class with its confidence, a volatility or
      volume reading HIGH_* exactly for the level "high", and any other type no
      signal; the signal carries the prediction's index. */
  lemma SignalOfMeaning(i: nat, p: Prediction)
    ensures SignalOf(i, p).None? <==> p.Untyped?
    ensures SignalOf(i, p).Some? ==> SignalOf(i, p).value.sequenceId == i
    ensures p.Failure? ==> SignalName(SignalOf(i, p).value) == "ERROR" && SignalOf(i, p).value.confidence == 0.0
    ensures p.PriceMovement? ==>
      SignalOf(i, p).value.confidence == p.confidence &&
      (SignalName(SignalOf(i, p).value) == "BUY" <==> p.predictedClass == 2) &&
      (SignalName(SignalOf(i, p).value) == "SELL" <==> p.predictedClass == 0) &&
      (SignalName(SignalOf(i, p).value) == "HOLD" <==> p.predictedClass != 0 && p.predictedClass != 2)
    ensures p.VolatilityReading? ==>
      SignalName(SignalOf(i, p).value) == (if p.volatilityLevel == "high" then "HIGH_VOLATILITY" else "LOW_VOLATILITY")
    ensures p.VolumeReading? ==>
      SignalName(SignalOf(i, p).value) == (if p.volumeLevel == "high" then "HIGH_VOLUME" else "LOW_VOLUME")
  {
    assert "BUY" != "SELL" && "BUY" != "HOLD" && "SELL" != "HOLD" by {
      assert "BUY"[0] != "SELL"[0] && "BUY"[0] != "HOLD"[0] && "SELL"[0] != "HOLD"[0];
    }
  }

  /** The signals of the predictions, in order. */
  function SignalsOf(preds: seq<Prediction>): seq<Signal>
  {
    if |preds| == 0 then []
    else
      var i := |preds| - 1;
      SignalsOf(preds[..i]) + (match SignalOf(i, preds[i]) case Some(s) => [s] case None => [])
  }

  /** Signals of a longer list extend those of a shorter one. */
  lemma {:induction false} SignalsOfPrefix(preds: seq<Prediction>, i: nat)
    requires i <= |preds|
    ensures SignalsOf(preds[..i]) <= SignalsOf(preds)
    decreases |preds| - i
  {
    if i < |preds| {
      SignalsOfPrefix(preds, i + 1);
      assert preds[..i + 1][..i] == preds[..i];
    } else {
      assert preds[..i] == preds;
    }
  }

  /** Each signal belongs to the prediction at its index. */
  lemma {:induction false} SignalsBelong(preds: seq<Prediction>)
    ensures forall k :: 0 <= k < |SignalsOf(preds)| ==>
      SignalsOf(preds)[k].sequenceId < |preds| &&
      SignalOf(SignalsOf(preds)[k].sequenceId, preds[SignalsOf(preds)[k].sequenceId]) == Some(SignalsOf(preds)[k])
  {
    if |preds| > 0 {
      var i := |preds| - 1;
      var init := preds[..i];
      SignalsBelong(init);
      SignalOfMeaning(i, preds[i]);
      assert forall j :: 0 <= j < i ==> init[j] == preds[j];
    }
  }

  /** The indices of the signals strictly increase. */
  lemma {:induction false} SignalsIncrease(preds: seq<Prediction>)
    ensures forall k, l :: 0 <= k < l < |SignalsOf(preds)| ==> SignalsOf(preds)[k].sequenceId < SignalsOf(preds)[l].sequenceId
  {
    if |preds| > 0 {
      var i := |preds| - 1;
      var init := preds[..i];
      SignalsIncrease(init);
      SignalsBelong(init);
      SignalOfMeaning(i, preds[i]);
    }
  }

  /** Every prediction of a known type has a signal. */
  lemma SignalsCover(preds: seq<Prediction>, i: nat)
    requires i < |preds| && !preds[i].Untyped?
    ensures exists k :: 0 <= k < |SignalsOf(preds)| && SignalsOf(preds)[k].sequenceId == i
  {
    SignalsOfPrefix(preds, i + 1);
    var before := SignalsOf(preds[..i]);
    SignalOfMeaning(i, preds[i]);
    assert preds[..i + 1][..i] == preds[..i];
    assert SignalsOf(preds[..i + 1]) == before + [SignalOf(i, preds[i]).value];
    assert SignalsOf(preds)[|before|] == SignalsOf(preds[..i + 1])[|before|];
  }

  /** `generate_trading_signals`. */
  method GenerateTradingSignals(preds: seq<Prediction>) returns (signals: seq<Signal>)
    ensures signals == SignalsOf(preds)
  {
    signals := [];
    var i := 0;
    while i < |preds|
      invariant i <= |preds|
      invariant signals == SignalsOf(preds[..i])
    {
      assert preds[..i + 1][..i] == preds[..i];
      var pred := preds[i];
      match pred {
        case Failure(e) =>
          signals := signals + [ErrorSignal(i, 0.0, e)];
        case PriceMovement(c, conf, name) =>
          var action := if c == 2 then "BUY" else if c == 0 then "SELL" else "HOLD";
          signals := signals + [TradeSignal(i, action, conf, c, name)];
        case VolatilityReading(level, amount) =>
          var action := if level == "high" then "HIGH_VOLATILITY" else "LOW_VOLATILITY";
          signals := signals + [LevelSignal(i, action, level, amount)];
        case VolumeReading(level, amount) =>
          var action := if level == "high" then "HIGH_VOLUME" else "LOW_VOLUME";
          signals := signals + [LevelSignal(i, action, level, amount)];
        case Untyped(_) =>
      }
      i := i + 1;
    }
    assert preds[..i] == preds;
  }

  // ---------------------------------------------------------------------------
  // load_test_data: cutting the rows into sequences

  /** The longest test sequence. */
  const MaxSequence := 30

  /** The loop state: the finished sequences, the open one and its symbol. */
  datatype Grouping = Grouping(data: seq<seq<Row>>, current: seq<Row>, currentSymbol: Option<string>)

  /** One row: a new symbol closes the open sequence (when it has rows) and opens
      one with this row; the same symbol extends it. */
  function Extended(g: Grouping, row: Row): Grouping
  {
    var symbol := if g.currentSymbol.None? then row.symbol else g.currentSymbol.value;
    if row.symbol != symbol then
      Grouping(if |g.current| > 0 then g.data + [g.current] else g.data, [row], Some(row.symbol))
    else Grouping(g.data, g.current + [row], Some(symbol))
  }

  /** A sequence reaching 30 rows is closed at once. */
  function Closed(g: Grouping): Grouping
  {
    if |g.current| >= MaxSequence then Grouping(g.data + [g.current], [], g.currentSymbol) else g
  }

  function GroupStep(g: Grouping, row: Row): Grouping
  {
    Closed(Extended(g, row))
  }

  function GroupRows(rows: seq<Row>): Grouping
  {
    if |rows| == 0 then Grouping([], [], None) else GroupStep(GroupRows(rows[..|rows| - 1]), rows[|rows| - 1])
  }

  /** The sequences `load_test_data` returns for the rows read. */
  function TestSequences(rows: seq<Row>): seq<seq<Row>>
  {
    var g := GroupRows(rows);
    if |g.current| > 0 then g.data + [g.current] else g.data
  }

  /** A finished sequence: 1 to 30 rows of one symbol. */
  predicate GoodSequence(s: seq<Row>)
  {
    0 < |s| <= MaxSequence && forall k :: 0 <= k < |s| ==> s[k].symbol == s[0].symbol
  }

  /** What holds of the loop state after any prefix of the rows. */
  predicate GroupingInvariant(g: Grouping, rows: seq<Row>)
  {
    Concat(g.data) + g.current == rows &&
    (forall k :: 0 <= k < |g.data| ==> GoodSequence(g.data[k])) &&
    |g.current| < MaxSequence &&
    (|rows| > 0 <==> g.currentSymbol.Some?) &&
    (forall k :: 0 <= k < |g.current| ==> g.current[k].symbol == g.currentSymbol.value)
  }

  lemma {:induction false} ConcatAppend<T>(ss: seq<seq<T>>, s: seq<T>)
    ensures Concat(ss + [s]) == Concat(ss) + s
  {
    if |ss| > 0 {
      assert (ss + [s])[1..] == ss[1..] + [s];
      ConcatAppend(ss[1..], s);
    } else {
      assert Concat([s]) == s + Concat([s][1..]);
    }
  }

  /** The loop state just after a row is added, before a full sequence is closed. */
  predicate OpenGrouping(g: Grouping, rows: seq<Row>)
  {
    Concat(g.data) + g.current == rows &&
    (forall k :: 0 <= k < |g.data| ==> GoodSequence(g.data[k])) &&
    0 < |g.current| <= MaxSequence &&
    g.currentSymbol.Some? &&
    (forall k :: 0 <= k < |g.current| ==> g.current[k].symbol == g.currentSymbol.value)
  }

  lemma ExtendedKeeps(g: Grouping, rows: seq<Row>, row: Row)
    requires GroupingInvariant(g, rows)
    ensures OpenGrouping(Extended(g, row), rows + [row])
  {
    var symbol := if g.currentSymbol.None? then row.symbol else g.currentSymbol.value;
    if row.symbol != symbol {
      if |g.current| > 0 {
        ConcatAppend(g.data, g.current);
      }
    } else {
      assert (g.current + [row])[..|g.current|] == g.current;
    }
  }

  lemma ClosedKeeps(g: Grouping, rows: seq<Row>)
    requires OpenGrouping(g, rows)
    ensures GroupingInvariant(Closed(g), rows)
  {
    if |g.current| >= MaxSequence {
      ConcatAppend(g.data, g.current);
    }
  }

  lemma GroupStepKeeps(g: Grouping, rows: seq<Row>, row: Row)
    requires GroupingInvariant(g, rows)
    ensures GroupingInvariant(GroupStep(g, row), rows + [row])
  {
    ExtendedKeeps(g, rows, row);
    ClosedKeeps(Extended(g, row), rows + [row]);
  }

  lemma {:induction false} GroupRowsInvariant(rows: seq<Row>)
    ensures GroupingInvariant(GroupRows(rows), rows)
  {
    if |rows| > 0 {
      var init, last := rows[..|rows| - 1], rows[|rows| - 1];
      assert rows == init + [last];
      var g := GroupRows(init);
      assert GroupRows(rows) == GroupStep(g, last);
      GroupRowsInvariant(init);
      GroupStepKeeps(g, init, last);
    }
  }

  /** Every row lands in exactly one sequence, in order, and every sequence holds
      1 to 30 rows of a single symbol. */
  lemma TestSequencesFacts(rows: seq<Row>)
    ensures Concat(TestSequences(rows)) == rows
    ensures forall k :: 0 <= k < |TestSequences(rows)| ==> GoodSequence(TestSequences(rows)[k])
  {
    var g := GroupRows(rows);
    GroupRowsInvariant(rows);
    if |g.current| > 0 {
      ConcatAppend(g.data, g.current);
    } else {
      assert g.current == [];
    }
  }

  /** The grouping loop of `load_test_data` over the rows read; reading the CSV
      and converting the numeric columns are not part of this model. */
  method LoadTestSequences(rows: seq<Row>) returns (data: seq<seq<Row>>)
    ensures data == TestSequences(rows)
  {
    data := [];
    var currentSequence: seq<Row> := [];
    var currentSymbol: Option<string> := None;
    var i := 0;
    while i < |rows|
      invariant i <= |rows|
      invariant GroupRows(rows[..i]) == Grouping(data, currentSequence, currentSymbol)
    {
      assert rows[..i + 1][..i] == rows[..i];
      var row := rows[i];
      var symbol := row.symbol;
      if currentSymbol.None? {
        currentSymbol := Some(symbol);
      }
      if symbol != currentSymbol.value {
        if |currentSequence| > 0 {
          data := data + [currentSequence];
        }
        currentSequence := [row];
        currentSymbol := Some(symbol);
      } else {
        currentSequence := currentSequence + [row];
      }
      if |currentSequence| >= MaxSequence {
        data := data + [currentSequence];
        currentSequence := [];
      }
      i := i + 1;
    }
    assert rows[..i] == rows;
    if |currentSequence| > 0 {
      data := data + [currentSequence];
    }
  }
}
