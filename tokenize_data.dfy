/** The stock-data tokenizer: a vocabulary of five special tokens and value tokens
    VAL_0, VAL_1, …, a per-feature min/max fit, the value-to-token quantisation,
    fixed-length sequence encoding, dataset windows with up/neutral/down labels,
    decoding, and the CSV lines the tokenized dataset is saved as. */
module Tokenizing {
  import opened Common
  import opened MarketRows

  const Pad := 0
  const Unk := 1
  const Cls := 2
  const Sep := 3
  const MaskId := 4
  const SpecialCount := 5
  const SpecialNames: seq<string> := ["<PAD>", "<UNK>", "<CLS>", "<SEP>", "<MASK>"]

  // ---------------------------------------------------------------------------
  // Vocabulary

  function ValName(k: nat): string
  {
    "VAL_" + ShowNat(k)
  }

  /** The token that id `id` stands for: a special token, or VAL_(id − 5). */
  function NameOf(id: nat): string
  {
    if id < SpecialCount then SpecialNames[id] else ValName(id - SpecialCount)
  }

  /** The id a token name stands for, read back from the name. */
  function IdOf(t: string): Option<nat>
  {
    var k := Position(SpecialNames, t);
    if k < |SpecialNames| then Some(k)
    else if |t| > 4 && t[..4] == "VAL_" && AllDigits(t[4..]) then Some(SpecialCount + DigitsValue(t[4..]))
    else None
  }

  /** Names and ids correspond one to one. */
  lemma IdOfNameOf(id: nat)
    ensures IdOf(NameOf(id)) == Some(id)
  {
    var t := NameOf(id);
    if id < SpecialCount {
      assert SpecialNames[0] == "<PAD>" && SpecialNames[1] == "<UNK>" && SpecialNames[2] == "<CLS>";
      assert SpecialNames[3] == "<SEP>" && SpecialNames[4] == "<MASK>";
    } else {
      assert t[0] == 'V';
      assert forall k :: 0 <= k < |SpecialNames| ==> SpecialNames[k][0] == '<';
      assert t[..4] == "VAL_" && t[4..] == ShowNat(id - SpecialCount);
      ShowNatValue(id - SpecialCount);
    }
  }

  /** A name that is the rendering of its own id. */
  predicate Canonical(t: string)
  {
    IdOf(t).Some? && NameOf(IdOf(t).value) == t
  }

  /** `range(vocab_size - 5)` is empty for a vocabulary size below 5, so the
      vocabulary always holds the five special tokens. */
  function VocabularyCount(vocabSize: int): nat
  {
    SpecialCount + MaxInt(0, vocabSize - SpecialCount)
  }

  /** `token_to_id` and `id_to_token` after `_initialize_vocabulary`: ids 0..n−1,
      each with its name. */
  ghost predicate IsVocabulary(tokenToId: map<string, int>, idToToken: map<int, string>, n: nat)
  {
    && (forall id :: id in idToToken <==> 0 <= id < n)
    && (forall id :: 0 <= id < n ==> idToToken[id] == NameOf(id))
    && (forall t :: t in tokenToId <==> Canonical(t) && IdOf(t).value < n)
    && (forall t :: t in tokenToId ==> tokenToId[t] == IdOf(t).value)
  }

  /** Adding the next id keeps the two maps a vocabulary. */
  lemma VocabularyExtend(tokenToId: map<string, int>, idToToken: map<int, string>, n: nat)
    requires IsVocabulary(tokenToId, idToToken, n)
    ensures NameOf(n) !in tokenToId
    ensures IsVocabulary(tokenToId[NameOf(n) := n], idToToken[n := NameOf(n)], n + 1)
  {
    IdOfNameOf(n);
    var name := NameOf(n);
    var t2i := tokenToId[name := n];
    var i2t := idToToken[n := name];
    assert forall id :: id in i2t <==> 0 <= id < n + 1;
    assert forall id :: 0 <= id < n + 1 ==> i2t[id] == NameOf(id);
    forall t ensures t in t2i <==> Canonical(t) && IdOf(t).value < n + 1 {
      if Canonical(t) && IdOf(t).value == n {
        assert t == name;
      }
    }
    forall t | t in t2i ensures t2i[t] == IdOf(t).value {
      if t != name {
        assert t in tokenToId;
      }
    }
  }

  /** The two maps are mutual inverses, and VAL_k has id 5 + k. */
  lemma VocabularyInverse(tokenToId: map<string, int>, idToToken: map<int, string>, n: nat)
    requires IsVocabulary(tokenToId, idToToken, n)
    ensures forall id :: id in idToToken ==> idToToken[id] in tokenToId && tokenToId[idToToken[id]] == id
    ensures forall t :: t in tokenToId ==> tokenToId[t] in idToToken && idToToken[tokenToId[t]] == t
    ensures forall k: nat :: SpecialCount + k < n ==> ValName(k) in tokenToId && tokenToId[ValName(k)] == SpecialCount + k
  {
    forall id | id in idToToken ensures idToToken[id] in tokenToId && tokenToId[idToToken[id]] == id {
      IdOfNameOf(id);
    }
    forall k: nat | SpecialCount + k < n
      ensures ValName(k) in tokenToId && tokenToId[ValName(k)] == SpecialCount + k
    {
      IdOfNameOf(SpecialCount + k);
      assert NameOf(SpecialCount + k) == ValName(k);
    }
  }

  // ---------------------------------------------------------------------------
  // Fit: per-feature min, max and mean

  datatype FeatureRange = FeatureRange(min: real, max: real, mean: real)

  /** The values of column `key`, in row order, from the rows that have it. */
  function ColumnValues(data: seq<Row>, key: string): (r: seq<real>)
    ensures |r| <= |data|
  {
    if |data| == 0 then []
    else
      var init := ColumnValues(data[..|data| - 1], key);
      var last := data[|data| - 1];
      if key in last.fields then init + [last.fields[key]] else init
  }

  lemma {:induction false} ColumnValuesEmpty(data: seq<Row>, key: string)
    ensures |ColumnValues(data, key)| == 0 <==> forall i :: 0 <= i < |data| ==> key !in data[i].fields
  {
    if |data| > 0 {
      ColumnValuesEmpty(data[..|data| - 1], key);
      assert forall i :: 0 <= i < |data| - 1 ==> data[..|data| - 1][i] == data[i];
    }
  }

  function MinOf(values: seq<real>): (r: real)
    requires |values| > 0
    ensures r in values && forall i :: 0 <= i < |values| ==> r <= values[i]
  {
    if |values| == 1 then values[0] else MinReal(MinOf(values[..|values| - 1]), values[|values| - 1])
  }

  function MaxOf(values: seq<real>): (r: real)
    requires |values| > 0
    ensures r in values && forall i :: 0 <= i < |values| ==> values[i] <= r
  {
    if |values| == 1 then values[0] else MaxReal(MaxOf(values[..|values| - 1]), values[|values| - 1])
  }

  lemma {:induction false} SumBetween(values: seq<real>, lo: real, hi: real)
    requires forall i :: 0 <= i < |values| ==> lo <= values[i] <= hi
    ensures |values| as real * lo <= SumReals(values) <= |values| as real * hi
  {
    if |values| > 0 {
      SumBetween(values[..|values| - 1], lo, hi);
    }
  }

  /** `{"min": min(v), "max": max(v), "mean": sum(v) / len(v)}`: the mean lies
      between the extremes. */
  function RangeOf(values: seq<real>): (r: FeatureRange)
    requires |values| > 0
    ensures r.min <= r.mean <= r.max
    ensures r.min in values && r.max in values
    ensures forall i :: 0 <= i < |values| ==> r.min <= values[i] <= r.max
  {
    var lo, hi := MinOf(values), MaxOf(values);
    var n := |values| as real;
    SumBetween(values, lo, hi);
    QuotientBetween(SumReals(values), n, lo, hi);
    FeatureRange(lo, hi, SumReals(values) / n)
  }

  /** The ranges `fit` records: one per feature whose column occurs in the data. */
  function RangesOf(data: seq<Row>): (r: map<string, FeatureRange>)
  {
    RangesOver(data, FeatureNames)
  }

  /** The ranges of the columns of `names`, recorded in order. */
  function RangesOver(data: seq<Row>, names: seq<string>): map<string, FeatureRange>
  {
    if |names| == 0 then map[]
    else
      var m := RangesOver(data, names[..|names| - 1]);
      var f := names[|names| - 1];
      var values := ColumnValues(data, Capitalize(f));
      if |values| > 0 then m[f := RangeOf(values)] else m
  }

  /** A name has a range iff it is listed and its column is nonempty; the range is
      that of its column. */
  lemma {:induction false} RangesOverLookup(data: seq<Row>, names: seq<string>, f: string)
    ensures f in RangesOver(data, names) <==> f in names && |ColumnValues(data, Capitalize(f))| > 0
    ensures f in RangesOver(data, names) ==> RangesOver(data, names)[f] == RangeOf(ColumnValues(data, Capitalize(f)))
  {
    if |names| > 0 {
      var init, g := names[..|names| - 1], names[|names| - 1];
      assert names == init + [g];
      var m, values := RangesOver(data, init), ColumnValues(data, Capitalize(g));
      assert RangesOver(data, names) == if |values| > 0 then m[g := RangeOf(values)] else m;
      RangesOverLookup(data, init, f);
    }
  }

  /** A feature is fitted iff some row has its column, and its range spans the
      column's values. */
  lemma RangesOfFacts(data: seq<Row>, f: string)
    requires f in FeatureNames
    ensures f in RangesOf(data) <==> exists i :: 0 <= i < |data| && Capitalize(f) in data[i].fields
    ensures f in RangesOf(data) ==>
      forall i :: 0 <= i < |data| && Capitalize(f) in data[i].fields ==>
        RangesOf(data)[f].min <= data[i].fields[Capitalize(f)] <= RangesOf(data)[f].max
  {
    var key := Capitalize(f);
    ColumnValuesEmpty(data, key);
    RangesOverLookup(data, FeatureNames, f);
    if f in RangesOf(data) {
      forall i | 0 <= i < |data| && key in data[i].fields
        ensures RangesOf(data)[f].min <= data[i].fields[key] <= RangesOf(data)[f].max
      {
        ColumnValuesContains(data, key, i);
      }
    }
  }

  lemma {:induction false} ColumnValuesContains(data: seq<Row>, key: string, i: nat)
    requires i < |data| && key in data[i].fields
    ensures data[i].fields[key] in ColumnValues(data, key)
  {
    if i < |data| - 1 {
      ColumnValuesContains(data[..|data| - 1], key, i);
    }
  }

  // ---------------------------------------------------------------------------
  // _value_to_token

  /** What `_value_to_token` returns: a token name, or the bare UNK id when the
      feature was not fitted. */
  datatype TokenOut = TokenName(name: string) | SpecialId(id: int)

  /** Quantise `value` of `feature`: normalise into the fitted range (0.5 for a
      constant feature), scale by vocab_size − 6, shift past the specials and clamp
      to [5, vocab_size − 1] (5 wins when the vocabulary is smaller than 6). */
  function ValueToToken(ranges: map<string, FeatureRange>, vocabSize: int, value: real, feature: string): TokenOut
  {
    if feature !in ranges then SpecialId(Unk)
    else
      var id := QuantisedId(Normalized(ranges[feature], value), vocabSize);
      TokenName(ValName(id - SpecialCount))
  }

  function Normalized(range: FeatureRange, value: real): real
  {
    if range.max > range.min then (value - range.min) / (range.max - range.min) else 0.5
  }

  function QuantisedId(normalized: real, vocabSize: int): (id: int)
    ensures id >= SpecialCount
    ensures vocabSize > SpecialCount ==> id <= vocabSize - 1
  {
    var raw := Trunc(normalized * (vocabSize - SpecialCount - 1) as real) + SpecialCount;
    MaxInt(MinInt(raw, vocabSize - 1), SpecialCount)
  }

  /** A larger value never gets a smaller token: the quantisation is monotone. */
  lemma QuantisedIdMonotone(a: real, b: real, vocabSize: int)
    requires a <= b && vocabSize >= SpecialCount + 1
    ensures QuantisedId(a, vocabSize) <= QuantisedId(b, vocabSize)
  {
    var scale := (vocabSize - SpecialCount - 1) as real;
    assert a * scale <= b * scale;
    TruncMonotone(a * scale, b * scale);
  }

  lemma TruncMonotone(x: real, y: real)
    requires x <= y
    ensures Trunc(x) <= Trunc(y)
  {
  }

  lemma NormalizedMonotone(range: FeatureRange, a: real, b: real)
    requires a <= b
    ensures Normalized(range, a) <= Normalized(range, b)
  {
    if range.max > range.min {
      var d := range.max - range.min;
      assert (a - range.min) / d <= (b - range.min) / d;
    }
  }

  /** A fitted feature with vocabulary size at least 6 gets a value token VAL_k with
      5 + k in [5, vocab_size − 1]; a constant feature gets the midpoint id, and
      a larger value never gets a smaller id. */
  lemma ValueToTokenFacts(ranges: map<string, FeatureRange>, vocabSize: int, value: real, feature: string)
    ensures feature !in ranges ==> ValueToToken(ranges, vocabSize, value, feature) == SpecialId(Unk)
    ensures feature in ranges ==> exists k: nat ::
      ValueToToken(ranges, vocabSize, value, feature) == TokenName(ValName(k)) &&
      (vocabSize > SpecialCount ==> SpecialCount + k <= vocabSize - 1)
    ensures feature in ranges && ranges[feature].max <= ranges[feature].min ==>
      ValueToToken(ranges, vocabSize, value, feature) ==
        TokenName(ValName(QuantisedId(0.5, vocabSize) - SpecialCount))
  {
    if feature in ranges {
      var id := QuantisedId(Normalized(ranges[feature], value), vocabSize);
      var k: nat := id - SpecialCount;
      assert ValueToToken(ranges, vocabSize, value, feature) == TokenName(ValName(k));
    }
  }

  lemma ValueToTokenMonotone(range: FeatureRange, vocabSize: int, a: real, b: real)
    requires a <= b && vocabSize >= SpecialCount + 1
    ensures QuantisedId(Normalized(range, a), vocabSize) <= QuantisedId(Normalized(range, b), vocabSize)
  {
    NormalizedMonotone(range, a, b);
    QuantisedIdMonotone(Normalized(range, a), Normalized(range, b), vocabSize);
  }

  /** `token_to_id.get(token, UNK)`: the bare UNK id is not a token name, so it
      maps to UNK as well. */
  function TokenId(tokenToId: map<string, int>, t: TokenOut): int
  {
    match t
    case TokenName(name) => if name in tokenToId then tokenToId[name] else Unk
    case SpecialId(_) => Unk
  }

  // ---------------------------------------------------------------------------
  // tokenize_row / tokenize_sequence

  /** Whether the row has a column that makes `_value_to_token` read the ranges. */
  predicate UsesRanges(row: Row)
  {
    exists f :: 0 <= f < |FeatureNames| && Capitalize(FeatureNames[f]) in row.fields
  }

  /** The six feature tokens of a row: UNK for a missing column. Reading a present
      column before `fit` raises AttributeError, since the ranges attribute is only
      created by `fit`. */
  function FeatureTokens(tokenToId: map<string, int>, ranges: Option<map<string, FeatureRange>>,
                         vocabSize: int, row: Row): (r: Result<seq<int>>)
    ensures r.Err? <==> ranges.None? && UsesRanges(row)
    ensures r.Ok? ==> |r.value| == |FeatureNames|
  {
    if ranges.None? && UsesRanges(row) then Err("AttributeError")
    else
      Ok(seq(|FeatureNames|, f requires 0 <= f < |FeatureNames| =>
        var key := Capitalize(FeatureNames[f]);
        if key !in row.fields then Unk
        else TokenId(tokenToId, ValueToToken(ranges.value, vocabSize, row.fields[key], FeatureNames[f]))))
  }

  /** `tokenize_row`: CLS, the six feature tokens, SEP. */
  function RowTokens(tokenToId: map<string, int>, ranges: Option<map<string, FeatureRange>>,
                     vocabSize: int, row: Row): Result<seq<int>>
  {
    match FeatureTokens(tokenToId, ranges, vocabSize, row)
    case Err(e) => Err(e)
    case Ok(ts) => Ok([Cls] + ts + [Sep])
  }

  /** A tokenized row has length 8: CLS first, SEP last, UNK for each missing
      column, and with a full vocabulary of at least 6 ids a value token in
      [5, vocab_size − 1] for each present one. */
  lemma RowTokensFacts(tokenToId: map<string, int>, idToToken: map<int, string>,
                       ranges: Option<map<string, FeatureRange>>, vocabSize: int, row: Row)
    requires IsVocabulary(tokenToId, idToToken, VocabularyCount(vocabSize))
    ensures RowTokens(tokenToId, ranges, vocabSize, row).Err? <==> ranges.None? && UsesRanges(row)
    ensures RowTokens(tokenToId, ranges, vocabSize, row).Ok? ==>
      var ts := RowTokens(tokenToId, ranges, vocabSize, row).value;
      && |ts| == 8 && ts[0] == Cls && ts[7] == Sep
      && (forall f :: 0 <= f < 6 && Capitalize(FeatureNames[f]) !in row.fields ==> ts[f + 1] == Unk)
      && (forall f :: 0 <= f < 6 && Capitalize(FeatureNames[f]) in row.fields && FeatureNames[f] in ranges.value ==>
            (vocabSize > SpecialCount ==> SpecialCount <= ts[f + 1] <= vocabSize - 1))
  {
    var r := FeatureTokens(tokenToId, ranges, vocabSize, row);
    if r.Ok? {
      var ts := [Cls] + r.value + [Sep];
      forall f | 0 <= f < 6 && Capitalize(FeatureNames[f]) in row.fields && FeatureNames[f] in ranges.value
        ensures vocabSize > SpecialCount ==> SpecialCount <= ts[f + 1] <= vocabSize - 1
      {
        var key := Capitalize(FeatureNames[f]);
        var id := QuantisedId(Normalized(ranges.value[FeatureNames[f]], row.fields[key]), vocabSize);
        assert ts[f + 1] == r.value[f];
        if vocabSize > SpecialCount {
          VocabularyInverse(tokenToId, idToToken, VocabularyCount(vocabSize));
          assert ValName(id - SpecialCount) in tokenToId;
        }
      }
    }
  }

  function Zeros(n: nat): (r: seq<int>)
    ensures |r| == n && forall i :: 0 <= i < n ==> r[i] == 0
  {
    seq(n, _ => 0)
  }

  /** Truncate to `max_length − 1` tokens plus SEP, or pad with PAD up to
      `max_length`. */
  function FitLength(all: seq<int>, maxLength: int): seq<int>
  {
    if |all| > maxLength then SliceTo(all, maxLength - 1) + [Sep] else all + Zeros(maxLength - |all|)
  }

  /** With a positive `max_length` the result has exactly that length: the
      content and then PAD when it fits, otherwise a prefix with SEP in the last
      slot. */
  lemma FitLengthFacts(all: seq<int>, maxLength: int)
    requires maxLength >= 1
    ensures |FitLength(all, maxLength)| == maxLength
    ensures |all| <= maxLength ==>
      FitLength(all, maxLength)[..|all|] == all &&
      forall i :: |all| <= i < maxLength ==> FitLength(all, maxLength)[i] == Pad
    ensures |all| > maxLength ==>
      FitLength(all, maxLength)[..maxLength - 1] == all[..maxLength - 1] &&
      FitLength(all, maxLength)[maxLength - 1] == Sep
  {
    if |all| > maxLength {
      var r := FitLength(all, maxLength);
      assert r[..maxLength - 1] == SliceTo(all, maxLength - 1);
    } else {
      assert (all + Zeros(maxLength - |all|))[..|all|] == all;
    }
  }

  /** The six feature tokens of every row, one row after another. */
  function SequenceFeatures(tokenToId: map<string, int>, ranges: Option<map<string, FeatureRange>>,
                            vocabSize: int, rows: seq<Row>): (r: Result<seq<int>>)
    ensures r.Ok? ==> |r.value| == 6 * |rows|
  {
    if |rows| == 0 then Ok([])
    else
      match SequenceFeatures(tokenToId, ranges, vocabSize, rows[..|rows| - 1])
      case Err(e) => Err(e)
      case Ok(init) =>
        match FeatureTokens(tokenToId, ranges, vocabSize, rows[|rows| - 1])
        case Err(e) => Err(e)
        case Ok(ts) => Ok(init + ts)
  }

  /** `tokenize_sequence`: CLS, six tokens per row, SEP, then truncated or padded
      to `max_length`. */
  function SequenceTokens(tokenToId: map<string, int>, ranges: Option<map<string, FeatureRange>>,
                          vocabSize: int, maxLength: int, rows: seq<Row>): Result<seq<int>>
  {
    match SequenceFeatures(tokenToId, ranges, vocabSize, rows)
    case Err(e) => Err(e)
    case Ok(ts) => Ok(FitLength([Cls] + ts + [Sep], maxLength))
  }

  /** An encoded sequence has exactly `max_length` tokens (for `max_length` ≥ 1),
      starts with CLS (for `max_length` ≥ 2), carries SEP right after the content
      or in the last slot when truncated, and is PAD after that. */
  lemma SequenceTokensFacts(tokenToId: map<string, int>, ranges: Option<map<string, FeatureRange>>,
                            vocabSize: int, maxLength: int, rows: seq<Row>)
    requires maxLength >= 1
    requires SequenceTokens(tokenToId, ranges, vocabSize, maxLength, rows).Ok?
    ensures var ts := SequenceTokens(tokenToId, ranges, vocabSize, maxLength, rows).value;
      var content := 6 * |rows| + 2;
      && |ts| == maxLength
      && (maxLength >= 2 ==> ts[0] == Cls)
      && (content <= maxLength ==> ts[content - 1] == Sep && forall i :: content <= i < maxLength ==> ts[i] == Pad)
      && (content > maxLength ==> ts[maxLength - 1] == Sep)
  {
    var body := SequenceFeatures(tokenToId, ranges, vocabSize, rows).value;
    var all := [Cls] + body + [Sep];
    FitLengthFacts(all, maxLength);
    var ts := FitLength(all, maxLength);
    if |all| <= maxLength {
      assert ts[..|all|] == all;
      assert ts[|all| - 1] == all[|all| - 1];
      assert ts[0] == all[0];
    } else if maxLength >= 2 {
      assert ts[..maxLength - 1] == all[..maxLength - 1];
      assert ts[0] == ts[..maxLength - 1][0];
    }
  }

  // ---------------------------------------------------------------------------
  // encode_dataset

  /** The label of the window ending at `current`, from the next row's close:
      down (0) below −1 %, up (2) above +1 %, neutral (1) otherwise. A missing
      "Close" raises KeyError and a zero close ZeroDivisionError. */
  function LabelOf(current: Row, next: Row): (r: Result<int>)
    ensures r.Ok? ==> 0 <= r.value <= 2
  {
    if "Close" !in current.fields || "Close" !in next.fields then Err("KeyError")
    else if current.fields["Close"] == 0.0 then Err("ZeroDivisionError")
    else
      var change := (next.fields["Close"] - current.fields["Close"]) / current.fields["Close"];
      Ok(if change < -0.01 then 0 else if change > 0.01 then 2 else 1)
  }

  /** The label thresholds, stated on the price change. */
  lemma LabelThresholds(current: Row, next: Row)
    requires "Close" in current.fields && "Close" in next.fields && current.fields["Close"] != 0.0
    ensures var c := current.fields["Close"];
      var change := (next.fields["Close"] - c) / c;
      && (LabelOf(current, next) == Ok(0) <==> change < -0.01)
      && (LabelOf(current, next) == Ok(2) <==> change > 0.01)
      && (LabelOf(current, next) == Ok(1) <==> -0.01 <= change <= 0.01)
  {
  }

  datatype Encoded = Encoded(inputIds: seq<seq<int>>, labels: seq<int>)

  function NumWindows(rows: seq<Row>, sequenceLength: nat): nat
  {
    if |rows| > sequenceLength then |rows| - sequenceLength else 0
  }

  /** The first `n` windows of one symbol's date-sorted rows: tokens of rows
      i..i+L−1, labelled from rows i+L−1 and i+L. The tokens are computed before the
      label, so their error comes first. */
  function GroupWindows(tokenToId: map<string, int>, ranges: Option<map<string, FeatureRange>>,
                        vocabSize: int, maxLength: int, rows: seq<Row>, sequenceLength: nat, n: nat): (r: Result<Encoded>)
    requires sequenceLength >= 1 && n <= NumWindows(rows, sequenceLength)
    ensures r.Ok? ==> |r.value.inputIds| == |r.value.labels| == n
  {
    if n == 0 then Ok(Encoded([], []))
    else
      match GroupWindows(tokenToId, ranges, vocabSize, maxLength, rows, sequenceLength, n - 1)
      case Err(e) => Err(e)
      case Ok(acc) =>
        var i := n - 1;
        match SequenceTokens(tokenToId, ranges, vocabSize, maxLength, rows[i..i + sequenceLength])
        case Err(e) => Err(e)
        case Ok(ts) =>
          match LabelOf(rows[i + sequenceLength - 1], rows[i + sequenceLength])
          case Err(e) => Err(e)
          case Ok(movement) => Ok(Encoded(acc.inputIds + [ts], acc.labels + [movement]))
  }

  function TotalWindows(groups: seq<seq<Row>>, sequenceLength: nat): nat
  {
    if |groups| == 0 then 0
    else TotalWindows(groups[..|groups| - 1], sequenceLength) + NumWindows(groups[|groups| - 1], sequenceLength)
  }

  /** All windows of the first `g` groups, in the groups' order. */
  function DatasetWindows(tokenToId: map<string, int>, ranges: Option<map<string, FeatureRange>>,
                          vocabSize: int, maxLength: int, groups: seq<seq<Row>>, sequenceLength: nat, g: nat): (r: Result<Encoded>)
    requires sequenceLength >= 1 && g <= |groups|
    ensures r.Ok? ==> |r.value.inputIds| == |r.value.labels| == TotalWindows(groups[..g], sequenceLength)
  {
    if g == 0 then Ok(Encoded([], []))
    else
      assert groups[..g][..g - 1] == groups[..g - 1];
      match DatasetWindows(tokenToId, ranges, vocabSize, maxLength, groups, sequenceLength, g - 1)
      case Err(e) => Err(e)
      case Ok(acc) =>
        var rows := groups[g - 1];
        match GroupWindows(tokenToId, ranges, vocabSize, maxLength, rows, sequenceLength, NumWindows(rows, sequenceLength))
        case Err(e) => Err(e)
        case Ok(more) => Ok(Encoded(acc.inputIds + more.inputIds, acc.labels + more.labels))
  }

  /** Every label is 0, 1 or 2, and every sequence has `max_length` tokens. */
  predicate WellEncoded(e: Encoded, maxLength: int)
  {
    (forall k :: 0 <= k < |e.labels| ==> 0 <= e.labels[k] <= 2) &&
    (forall k :: 0 <= k < |e.inputIds| ==> |e.inputIds[k]| == maxLength)
  }

  lemma WellEncodedAppend(acc: Encoded, more: Encoded, maxLength: int)
    requires WellEncoded(acc, maxLength) && WellEncoded(more, maxLength)
    ensures WellEncoded(Encoded(acc.inputIds + more.inputIds, acc.labels + more.labels), maxLength)
  {
  }

  /** Every window of a group is well encoded. */
  lemma {:induction false} GroupWindowsFacts(tokenToId: map<string, int>, ranges: Option<map<string, FeatureRange>>,
                                             vocabSize: int, maxLength: int, rows: seq<Row>, sequenceLength: nat, n: nat)
    requires sequenceLength >= 1 && n <= NumWindows(rows, sequenceLength) && maxLength >= 1
    requires GroupWindows(tokenToId, ranges, vocabSize, maxLength, rows, sequenceLength, n).Ok?
    ensures WellEncoded(GroupWindows(tokenToId, ranges, vocabSize, maxLength, rows, sequenceLength, n).value, maxLength)
  {
    if n > 0 {
      var i := n - 1;
      var window := rows[i..i + sequenceLength];
      var acc := GroupWindows(tokenToId, ranges, vocabSize, maxLength, rows, sequenceLength, n - 1).value;
      var ts := SequenceTokens(tokenToId, ranges, vocabSize, maxLength, window).value;
      var movement := LabelOf(rows[i + sequenceLength - 1], rows[i + sequenceLength]).value;
      assert GroupWindows(tokenToId, ranges, vocabSize, maxLength, rows, sequenceLength, n).value ==
        Encoded(acc.inputIds + [ts], acc.labels + [movement]);
      GroupWindowsFacts(tokenToId, ranges, vocabSize, maxLength, rows, sequenceLength, n - 1);
      SequenceTokensFacts(tokenToId, ranges, vocabSize, maxLength, window);
      WellEncodedAppend(acc, Encoded([ts], [movement]), maxLength);
    }
  }

  /** Every window of the first `g` groups is well encoded. */
  lemma {:induction false} DatasetWindowsFacts(tokenToId: map<string, int>, ranges: Option<map<string, FeatureRange>>,
                                               vocabSize: int, maxLength: int, groups: seq<seq<Row>>, sequenceLength: nat, g: nat)
    requires sequenceLength >= 1 && g <= |groups| && maxLength >= 1
    requires DatasetWindows(tokenToId, ranges, vocabSize, maxLength, groups, sequenceLength, g).Ok?
    ensures WellEncoded(DatasetWindows(tokenToId, ranges, vocabSize, maxLength, groups, sequenceLength, g).value, maxLength)
  {
    if g > 0 {
      var rows := groups[g - 1];
      var acc := DatasetWindows(tokenToId, ranges, vocabSize, maxLength, groups, sequenceLength, g - 1).value;
      var more := GroupWindows(tokenToId, ranges, vocabSize, maxLength, rows, sequenceLength, NumWindows(rows, sequenceLength)).value;
      assert DatasetWindows(tokenToId, ranges, vocabSize, maxLength, groups, sequenceLength, g).value ==
        Encoded(acc.inputIds + more.inputIds, acc.labels + more.labels);
      DatasetWindowsFacts(tokenToId, ranges, vocabSize, maxLength, groups, sequenceLength, g - 1);
      GroupWindowsFacts(tokenToId, ranges, vocabSize, maxLength, rows, sequenceLength, NumWindows(rows, sequenceLength));
      WellEncodedAppend(acc, more, maxLength);
    }
  }

  /** `encode_dataset`: windows of every symbol's date-sorted rows, symbols in order
      of first appearance. */
  function EncodeDatasetOf(tokenToId: map<string, int>, ranges: Option<map<string, FeatureRange>>,
                           vocabSize: int, maxLength: int, data: seq<Row>, sequenceLength: nat): Result<Encoded>
    requires sequenceLength >= 1
  {
    var groups := Groups(data);
    DatasetWindows(tokenToId, ranges, vocabSize, maxLength, groups, sequenceLength, |groups|)
  }

  /** One sequence and one label per window: len − L windows per symbol (not
      len − L + 1), labels in {0, 1, 2}, each sequence `max_length` long. */
  lemma EncodeDatasetFacts(tokenToId: map<string, int>, ranges: Option<map<string, FeatureRange>>,
                           vocabSize: int, maxLength: int, data: seq<Row>, sequenceLength: nat)
    requires sequenceLength >= 1 && maxLength >= 1
    requires EncodeDatasetOf(tokenToId, ranges, vocabSize, maxLength, data, sequenceLength).Ok?
    ensures var e := EncodeDatasetOf(tokenToId, ranges, vocabSize, maxLength, data, sequenceLength).value;
      && |e.inputIds| == |e.labels| == TotalWindows(Groups(data), sequenceLength)
      && (forall k :: 0 <= k < |e.labels| ==> 0 <= e.labels[k] <= 2)
      && (forall k :: 0 <= k < |e.inputIds| ==> |e.inputIds[k]| == maxLength)
  {
    var groups := Groups(data);
    assert groups[..|groups|] == groups;
    DatasetWindowsFacts(tokenToId, ranges, vocabSize, maxLength, groups, sequenceLength, |groups|);
  }

  // ---------------------------------------------------------------------------
  // decode and save_tokenized_data

  /** The word `decode` emits for one id. */
  function WordOf(idToToken: map<int, string>, id: int): string
  {
    if id in idToToken then idToToken[id] else "<UNK>"
  }

  function DecodedWords(idToToken: map<int, string>, ids: seq<int>): (r: seq<string>)
    ensures |r| == |ids| && forall k :: 0 <= k < |ids| ==> r[k] == WordOf(idToToken, ids[k])
  {
    seq(|ids|, k requires 0 <= k < |ids| => WordOf(idToToken, ids[k]))
  }

  lemma NameOfIsWord(id: nat)
    ensures |NameOf(id)| > 0 && NoSpace(NameOf(id))
  {
    if id < SpecialCount {
      assert SpecialNames[0] == "<PAD>" && SpecialNames[1] == "<UNK>" && SpecialNames[2] == "<CLS>";
      assert SpecialNames[3] == "<SEP>" && SpecialNames[4] == "<MASK>";
    } else {
      var s := ShowNat(id - SpecialCount);
      assert forall k :: 0 <= k < |s| ==> IsDigit(s[k]);
    }
  }

  /** `decode` emits one word per id: the id's token, or "<UNK>" for an id outside
      the vocabulary. */
  lemma DecodeWords(tokenToId: map<string, int>, idToToken: map<int, string>, n: nat, ids: seq<int>)
    requires IsVocabulary(tokenToId, idToToken, n)
    ensures Words(JoinWords(DecodedWords(idToToken, ids))) == DecodedWords(idToToken, ids)
    ensures forall k :: 0 <= k < |ids| ==>
      DecodedWords(idToToken, ids)[k] == (if 0 <= ids[k] < n then NameOf(ids[k]) else "<UNK>")
  {
    var ws := DecodedWords(idToToken, ids);
    forall k | 0 <= k < |ws| ensures |ws[k]| > 0 && NoSpace(ws[k]) {
      if ids[k] in idToToken {
        NameOfIsWord(ids[k]);
      }
    }
    WordsOfJoin(ws);
  }

  /** One saved line: the tokens separated by spaces, a comma, the label. */
  function SavedLine(tokens: seq<int>, movement: int): string
  {
    JoinWords(seq(|tokens|, k requires 0 <= k < |tokens| => ShowInt(tokens[k]))) + "," + ShowInt(movement) + "\n"
  }

  function SavedRows(inputIds: seq<seq<int>>, labels: seq<int>): (r: seq<string>)
    ensures |r| == MinInt(|inputIds|, |labels|)
  {
    if |inputIds| == 0 || |labels| == 0 then []
    else [SavedLine(inputIds[0], labels[0])] + SavedRows(inputIds[1..], labels[1..])
  }

  /** The lines `save_tokenized_data` writes: a header, then one line per pair of
      the zip of inputs and labels. */
  function SavedLines(inputIds: seq<seq<int>>, labels: seq<int>): seq<string>
  {
    ["input_ids,labels\n"] + SavedRows(inputIds, labels)
  }

  /** The first loop of `_initialize_vocabulary`: each special token with its
      fixed id. */
  method AddSpecialTokens(tokenToId: map<string, int>, idToToken: map<int, string>)
    returns (t2i: map<string, int>, i2t: map<int, string>)
    requires tokenToId == map[] && idToToken == map[]
    ensures IsVocabulary(t2i, i2t, SpecialCount) && |t2i| == |i2t| == SpecialCount
  {
    t2i, i2t := tokenToId, idToToken;
    var j := 0;
    while j < SpecialCount
      invariant j <= SpecialCount
      invariant IsVocabulary(t2i, i2t, j) && |t2i| == |i2t| == j
    {
      VocabularyExtend(t2i, i2t, j);
      t2i, i2t := t2i[SpecialNames[j] := j], i2t[j := SpecialNames[j]];
      j := j + 1;
    }
  }

  lemma ValueTokenStep(t2i: map<string, int>, i2t: map<int, string>, i: nat)
    requires IsVocabulary(t2i, i2t, SpecialCount + i) && |t2i| == |i2t| == SpecialCount + i
    ensures var t2i', i2t' := t2i[ValName(i) := SpecialCount + i], i2t[SpecialCount + i := ValName(i)];
      IsVocabulary(t2i', i2t', SpecialCount + i + 1) && |t2i'| == |i2t'| == SpecialCount + i + 1
  {
    assert NameOf(SpecialCount + i) == ValName(i);
    VocabularyExtend(t2i, i2t, SpecialCount + i);
  }

  /** The second loop: VAL_i gets the id `len(token_to_id)`, which is 5 + i. */
  method AddValueTokens(tokenToId: map<string, int>, idToToken: map<int, string>, count: int)
    returns (t2i: map<string, int>, i2t: map<int, string>)
    requires IsVocabulary(tokenToId, idToToken, SpecialCount) && |tokenToId| == |idToToken| == SpecialCount
    ensures IsVocabulary(t2i, i2t, SpecialCount + MaxInt(0, count))
    ensures |t2i| == |i2t| == SpecialCount + MaxInt(0, count)
  {
    t2i, i2t := tokenToId, idToToken;
    var i := 0;
    while i < count
      invariant 0 <= i && (i <= count || i == 0)
      invariant IsVocabulary(t2i, i2t, SpecialCount + i) && |t2i| == |i2t| == SpecialCount + i
    {
      var token := ValName(i);
      var tokenId := |t2i|;
      ValueTokenStep(t2i, i2t, i);
      t2i, i2t := t2i[token := tokenId], i2t[tokenId := token];
      i := i + 1;
    }
  }

  /** A `defaultdict(list)` read. */
  function ListGet(columns: map<string, seq<real>>, f: string): seq<real>
  {
    if f in columns then columns[f] else []
  }

  /** The value a row contributes to a column: none when it lacks the column. */
  function Present(row: Row, key: string): seq<real>
  {
    if key in row.fields then [row.fields[key]] else []
  }

  /** The inner loop of `fit`: append the row's value of every feature it has. */
  method AddRow(columns: map<string, seq<real>>, row: Row) returns (out: map<string, seq<real>>)
    ensures forall f :: 0 <= f < |FeatureNames| ==>
      ListGet(out, FeatureNames[f]) == ListGet(columns, FeatureNames[f]) + Present(row, Capitalize(FeatureNames[f]))
  {
    FeatureNamesDistinct();
    out := columns;
    var k := 0;
    while k < |FeatureNames|
      invariant k <= |FeatureNames|
      invariant forall f :: 0 <= f < |FeatureNames| ==>
        ListGet(out, FeatureNames[f]) ==
          ListGet(columns, FeatureNames[f]) + (if f < k then Present(row, Capitalize(FeatureNames[f])) else [])
    {
      var feature := FeatureNames[k];
      var key := Capitalize(feature);
      if key in row.fields {
        out := out[feature := ListGet(out, feature) + [row.fields[key]]];
      }
      k := k + 1;
    }
  }

  /** The first loop of `fit`: every feature's column values, in row order. */
  method CollectColumns(data: seq<Row>) returns (columns: map<string, seq<real>>)
    ensures forall f :: 0 <= f < |FeatureNames| ==>
      ListGet(columns, FeatureNames[f]) == ColumnValues(data, Capitalize(FeatureNames[f]))
  {
    columns := map[];
    var i := 0;
    while i < |data|
      invariant i <= |data|
      invariant forall f :: 0 <= f < |FeatureNames| ==>
        ListGet(columns, FeatureNames[f]) == ColumnValues(data[..i], Capitalize(FeatureNames[f]))
    {
      assert data[..i + 1][..i] == data[..i];
      columns := AddRow(columns, data[i]);
      i := i + 1;
    }
    assert data[..|data|] == data;
  }

  /** The second loop of `fit`: a range for every feature with a nonempty column. */
  method ColumnRanges(data: seq<Row>, columns: map<string, seq<real>>) returns (ranges: map<string, FeatureRange>)
    requires forall f :: 0 <= f < |FeatureNames| ==>
      ListGet(columns, FeatureNames[f]) == ColumnValues(data, Capitalize(FeatureNames[f]))
    ensures ranges == RangesOf(data)
  {
    ranges := RangesOfColumns(data, columns, FeatureNames);
  }

  lemma RangesOverStep(data: seq<Row>, names: seq<string>, k: nat)
    requires k < |names|
    ensures var values := ColumnValues(data, Capitalize(names[k]));
      RangesOver(data, names[..k + 1]) ==
        if |values| > 0 then RangesOver(data, names[..k])[names[k] := RangeOf(values)] else RangesOver(data, names[..k])
  {
    assert names[..k + 1][..k] == names[..k];
  }

  method RangesOfColumns(data: seq<Row>, columns: map<string, seq<real>>, names: seq<string>)
    returns (ranges: map<string, FeatureRange>)
    requires forall f :: 0 <= f < |names| ==> ListGet(columns, names[f]) == ColumnValues(data, Capitalize(names[f]))
    ensures ranges == RangesOver(data, names)
  {
    ranges := map[];
    var k := 0;
    while k < |names|
      invariant k <= |names|
      invariant ranges == RangesOver(data, names[..k])
    {
      var feature := names[k];
      var values := ListGet(columns, feature);
      RangesOverStep(data, names, k);
      if |values| > 0 {
        ranges := ranges[feature := RangeOf(values)];
      }
      k := k + 1;
    }
    assert names[..|names|] == names;
  }

  // ---------------------------------------------------------------------------
  // The tokenizer object

  class SimpleKronosTokenizer {
    const vocabSize: int
    const maxLength: int
    var tokenToId: map<string, int>
    var idToToken: map<int, string>
    /** The `feature_ranges` attribute, which only exists after `fit`. */
    var featureRanges: Option<map<string, FeatureRange>>

    ghost predicate Valid()
      reads this
    {
      IsVocabulary(tokenToId, idToToken, VocabularyCount(vocabSize))
    }

    constructor (vocabSize: int, maxLength: int)
      ensures this.vocabSize == vocabSize && this.maxLength == maxLength
      ensures featureRanges.None?
      ensures Valid()
      ensures |tokenToId| == |idToToken| == VocabularyCount(vocabSize)
    {
      this.vocabSize := vocabSize;
      this.maxLength := maxLength;
      new;
      tokenToId := map[];
      idToToken := map[];
      featureRanges := None;
      InitializeVocabulary();
    }

    /** `_initialize_vocabulary`: the specials with their fixed ids, then VAL_i with
        id `len(token_to_id)`. */
    method InitializeVocabulary()
      requires tokenToId == map[] && idToToken == map[]
      modifies this
      ensures Valid() && |tokenToId| == |idToToken| == VocabularyCount(vocabSize)
      ensures featureRanges == old(featureRanges)
    {
      var t2i, i2t := AddSpecialTokens(tokenToId, idToToken);
      t2i, i2t := AddValueTokens(t2i, i2t, vocabSize - SpecialCount);
      tokenToId, idToToken := t2i, i2t;
    }

    /** `fit`: the minimum, maximum and mean of every feature column present in
        the data; the vocabulary is left alone. */
    method Fit(data: seq<Row>)
      modifies this
      ensures featureRanges == Some(RangesOf(data))
      ensures tokenToId == old(tokenToId) && idToToken == old(idToToken)
    {
      var columns := CollectColumns(data);
      var ranges := ColumnRanges(data, columns);
      featureRanges := Some(ranges);
    }
  }
}
