/** The data side of fine-tuning: the batches `create_data_loader` builds (padded
    token rows, attention masks, aligned labels), the train/eval split, and the
    reader of the tokenized-dataset file, which inverts the writer in Tokenizing. */
module Training {
  import opened Common
  import opened Tokenizing

  /** One pair of the zipped dataset: a token sequence and its label. */
  datatype Example = Example(tokens: seq<int>, movement: int)

  /** Parallel lists of token sequences and labels. */
  datatype Dataset = Dataset(inputIds: seq<seq<int>>, labels: seq<int>)

  /** `list(zip(input_ids, labels))`: as long as the shorter list. */
  function Zip(inputIds: seq<seq<int>>, labels: seq<int>): (r: seq<Example>)
    ensures |r| == MinInt(|inputIds|, |labels|)
    ensures forall i :: 0 <= i < |r| ==> r[i] == Example(inputIds[i], labels[i])
  {
    seq(MinInt(|inputIds|, |labels|), i requires 0 <= i < MinInt(|inputIds|, |labels|) => Example(inputIds[i], labels[i]))
  }

  /** `zip(*data)` taken back apart into its two lists: zipping them again gives
      `data` back. */
  function Unzip(data: seq<Example>): (r: Dataset)
    ensures |r.inputIds| == |r.labels| == |data|
    ensures Zip(r.inputIds, r.labels) == data
  {
    Dataset(seq(|data|, i requires 0 <= i < |data| => data[i].tokens),
            seq(|data|, i requires 0 <= i < |data| => data[i].movement))
  }

  // ---------------------------------------------------------------------------
  // create_data_loader

  /** The integer entries of `_get_default_config`. */
  const DefaultConfig: map<string, int> := map[
    "batch_size" := 32,
    "num_epochs" := 5,
    "warmup_steps" := 100,
    "gradient_accumulation_steps" := 1,
    "save_steps" := 500,
    "eval_steps" := 100,
    "logging_steps" := 10,
    "seed" := 42
  ]

  /** One batch: padded token rows, their attention masks and the labels. */
  datatype Batch = Batch(inputIds: seq<seq<int>>, attentionMask: seq<seq<int>>, labels: seq<int>)

  /** `max(len(seq) for seq in batch_input_ids)`. */
  function MaxLength(chunk: seq<Example>): (m: nat)
    requires |chunk| > 0
    ensures forall i :: 0 <= i < |chunk| ==> |chunk[i].tokens| <= m
    ensures exists i :: 0 <= i < |chunk| && |chunk[i].tokens| == m
  {
    if |chunk| == 1 then |chunk[0].tokens|
    else
      var m := MaxLength(chunk[..|chunk| - 1]);
      assert forall i :: 0 <= i < |chunk| - 1 ==> chunk[..|chunk| - 1][i] == chunk[i];
      if |chunk[|chunk| - 1].tokens| > m then |chunk[|chunk| - 1].tokens| else m
  }

  /** `[x] * n`: empty when n is not positive. */
  function Repeat(x: int, n: int): (r: seq<int>)
    ensures |r| == MaxInt(n, 0) && forall j :: 0 <= j < |r| ==> r[j] == x
  {
    if n <= 0 then [] else seq(n, _ => x)
  }

  /** `seq + [0] * (max_len - len(seq))`. */
  function PadRow(tokens: seq<int>, m: int): seq<int>
  {
    tokens + Repeat(0, m - |tokens|)
  }

  /** `[1] * len(seq) + [0] * (max_len - len(seq))`. */
  function MaskRow(n: nat, m: int): seq<int>
  {
    Repeat(1, n) + Repeat(0, m - n)
  }

  function PaddedRows(rows: seq<Example>, m: int): (r: seq<seq<int>>)
    ensures |r| == |rows|
  {
    if |rows| == 0 then [] else [PadRow(rows[0].tokens, m)] + PaddedRows(rows[1..], m)
  }

  function MaskRows(rows: seq<Example>, m: int): (r: seq<seq<int>>)
    ensures |r| == |rows|
  {
    if |rows| == 0 then [] else [MaskRow(|rows[0].tokens|, m)] + MaskRows(rows[1..], m)
  }

  function LabelsOf(rows: seq<Example>): (r: seq<int>)
    ensures |r| == |rows|
  {
    if |rows| == 0 then [] else [rows[0].movement] + LabelsOf(rows[1..])
  }

  lemma {:induction false} RowsAt(rows: seq<Example>, m: int)
    ensures forall i :: 0 <= i < |rows| ==>
      PaddedRows(rows, m)[i] == PadRow(rows[i].tokens, m) &&
      MaskRows(rows, m)[i] == MaskRow(|rows[i].tokens|, m) &&
      LabelsOf(rows)[i] == rows[i].movement
  {
    if |rows| > 0 {
      RowsAt(rows[1..], m);
    }
  }

  /** The batch `create_data_loader` builds from one slice of the data. */
  function BatchOf(chunk: seq<Example>): Batch
    requires |chunk| > 0
  {
    var m := MaxLength(chunk);
    Batch(PaddedRows(chunk, m), MaskRows(chunk, m), LabelsOf(chunk))
  }

  /** Every row of a batch is padded with 0 to the longest row of its slice, its
      mask is 1 over the real tokens and 0 over the padding, and the labels stay
      aligned with the rows. */
  lemma BatchOfFacts(chunk: seq<Example>)
    requires |chunk| > 0
    ensures var b := BatchOf(chunk);
      |b.inputIds| == |b.attentionMask| == |b.labels| == |chunk| &&
      forall i :: 0 <= i < |chunk| ==>
        |b.inputIds[i]| == |b.attentionMask[i]| == MaxLength(chunk) &&
        b.inputIds[i][..|chunk[i].tokens|] == chunk[i].tokens &&
        b.labels[i] == chunk[i].movement &&
        forall j :: 0 <= j < MaxLength(chunk) ==>
          b.attentionMask[i][j] == (if j < |chunk[i].tokens| then 1 else 0) &&
          (j >= |chunk[i].tokens| ==> b.inputIds[i][j] == 0)
  {
    var m := MaxLength(chunk);
    RowsAt(chunk, m);
  }

  /** `data[i:i + batch_size]` for i = 0, bs, 2·bs, …: consecutive slices of `bs`
      examples, the last one possibly shorter. */
  function Chunks(data: seq<Example>, bs: nat): (r: seq<seq<Example>>)
    requires bs > 0
    ensures forall k :: 0 <= k < |r| ==> 0 < |r[k]| <= bs
    decreases |data|
  {
    if |data| == 0 then []
    else
      var m := MinInt(bs, |data|);
      var rest := Chunks(data[m..], bs);
      var r := [data[..m]] + rest;
      assert forall k :: 1 <= k < |r| ==> r[k] == rest[k - 1];
      r
  }

  /** The slices put back together are the data, in order. */
  lemma {:induction false} ChunksConcat(data: seq<Example>, bs: nat)
    requires bs > 0
    ensures Concat(Chunks(data, bs)) == data
    decreases |data|
  {
    if |data| > 0 {
      var m := MinInt(bs, |data|);
      ChunksConcat(data[m..], bs);
      assert Chunks(data, bs)[1..] == Chunks(data[m..], bs);
      assert data == data[..m] + data[m..];
    }
  }

  lemma MulGrow(b: int, k: int)
    requires b > 0 && k >= 1
    ensures b * k >= b
  {
    var e := k - 1;
    assert b * k == b * e + b;
    assert b * e >= 0;
  }

  /** Euclidean division has one quotient. */
  lemma DivUnique(a: int, b: int, q: int, r: int)
    requires b > 0 && 0 <= r < b && a == b * q + r
    ensures a / b == q
  {
    var q', r' := a / b, a % b;
    assert a == b * q' + r';
    if q > q' {
      var k := q - q';
      assert b * q == b * q' + b * k;
      MulGrow(b, k);
    } else if q < q' {
      var k := q' - q;
      assert b * q' == b * q + b * k;
      MulGrow(b, k);
    }
  }

  lemma DivStep(x: nat, bs: nat)
    requires bs > 0
    ensures (x + bs) / bs == x / bs + 1
  {
    var q, r := x / bs, x % bs;
    assert x == bs * q + r;
    assert x + bs == bs * (q + 1) + r;
    DivUnique(x + bs, bs, q + 1, r);
  }

  /** ⌈n / bs⌉ slices, all of them full but the last. */
  lemma {:induction false} ChunksCount(data: seq<Example>, bs: nat)
    requires bs > 0
    ensures |Chunks(data, bs)| == (|data| + bs - 1) / bs
    ensures forall k :: 0 <= k < |Chunks(data, bs)| - 1 ==> |Chunks(data, bs)[k]| == bs
    decreases |data|
  {
    if |data| > bs {
      ChunksCount(data[bs..], bs);
      DivStep(|data| - 1, bs);
      var rest := Chunks(data[bs..], bs);
      assert forall k :: 1 <= k < |Chunks(data, bs)| ==> Chunks(data, bs)[k] == rest[k - 1];
    } else if |data| > 0 {
      assert (|data| + bs - 1) / bs == 1 by {
        assert bs <= |data| + bs - 1 < 2 * bs;
      }
    }
  }

  /** The batches of the data, one per slice. */
  function Batches(data: seq<Example>, bs: nat): seq<Batch>
    requires bs > 0
    decreases |data|
  {
    if |data| == 0 then []
    else
      var m := MinInt(bs, |data|);
      [BatchOf(data[..m])] + Batches(data[m..], bs)
  }

  /** The k-th batch is built from the k-th slice. */
  lemma {:induction false} BatchesOfChunks(data: seq<Example>, bs: nat)
    requires bs > 0
    ensures |Batches(data, bs)| == |Chunks(data, bs)|
    ensures forall k :: 0 <= k < |Batches(data, bs)| ==> Batches(data, bs)[k] == BatchOf(Chunks(data, bs)[k])
    decreases |data|
  {
    if |data| > 0 {
      var m := MinInt(bs, |data|);
      BatchesOfChunks(data[m..], bs);
      var r, c := Batches(data, bs), Chunks(data, bs);
      assert forall k :: 1 <= k < |r| ==> r[k] == Batches(data[m..], bs)[k - 1];
      assert forall k :: 1 <= k < |c| ==> c[k] == Chunks(data[m..], bs)[k - 1];
    }
  }

  /** `batch_size or self.config["batch_size"]`: a missing or zero argument falls
      back to the configuration, which may lack the key. */
  function EffectiveBatchSize(batchSize: Option<int>, config: map<string, int>): Option<int>
  {
    if batchSize.Some? && batchSize.value != 0 then batchSize
    else if "batch_size" in config then Some(config["batch_size"])
    else None
  }

  /** The inner loop of `create_data_loader`: pad every row of one slice. */
  method PadBatch(chunk: seq<Example>) returns (b: Batch)
    requires |chunk| > 0
    ensures b == BatchOf(chunk)
  {
    var batchLabels := seq(|chunk|, i requires 0 <= i < |chunk| => chunk[i].movement);
    var maxLen := MaxLength(chunk);
    var padded: seq<seq<int>> := [];
    var masks: seq<seq<int>> := [];
    var i := 0;
    while i < |chunk|
      invariant i <= |chunk|
      invariant |padded| == |masks| == i
      invariant forall k :: 0 <= k < i ==> padded[k] == PadRow(chunk[k].tokens, maxLen)
      invariant forall k :: 0 <= k < i ==> masks[k] == MaskRow(|chunk[k].tokens|, maxLen)
    {
      var row := chunk[i].tokens;
      padded := padded + [PadRow(row, maxLen)];
      masks := masks + [MaskRow(|row|, maxLen)];
      i := i + 1;
    }
    RowsAt(chunk, maxLen);
    assert padded == PaddedRows(chunk, maxLen) && masks == MaskRows(chunk, maxLen);
    assert batchLabels == LabelsOf(chunk);
    b := Batch(padded, masks, batchLabels);
  }

  /** The outer loop of `create_data_loader`: one batch per slice, in order. */
  method MakeBatches(data: seq<Example>, bs: nat) returns (batches: seq<Batch>)
    requires bs > 0
    ensures batches == Batches(data, bs)
  {
    batches := [];
    var i := 0;
    while i < |data|
      invariant i <= |data|
      invariant Batches(data, bs) == batches + Batches(data[i..], bs)
    {
      var next := MinInt(i + bs, |data|);
      var b := PadBatch(data[i..next]);
      BatchStep(data, bs, i, batches, b);
      batches := batches + [b];
      i := next;
    }
    assert data[i..] == [];
  }

  /** One turn of the outer loop takes the next slice off the remaining data. */
  lemma BatchStep(data: seq<Example>, bs: nat, i: nat, done: seq<Batch>, b: Batch)
    requires bs > 0 && i < |data|
    requires b == BatchOf(data[i..MinInt(i + bs, |data|)])
    ensures done + Batches(data[i..], bs) == (done + [b]) + Batches(data[MinInt(i + bs, |data|)..], bs)
  {
    var rest := data[i..];
    var m := MinInt(bs, |rest|);
    assert rest[..m] == data[i..MinInt(i + bs, |data|)];
    assert rest[m..] == data[MinInt(i + bs, |data|)..];
    assert Batches(rest, bs) == [b] + Batches(data[MinInt(i + bs, |data|)..], bs);
  }

  class KronosFineTuner {
    /** The integer-valued entries of `self.config`. */
    const config: map<string, int>

    /** `config or self._get_default_config()`: a missing or empty configuration
        is replaced by the defaults. */
    constructor (config: Option<map<string, int>>)
      ensures this.config == if config.None? || |config.value| == 0 then DefaultConfig else config.value
    {
      this.config := if config.None? || |config.value| == 0 then DefaultConfig else config.value;
    }

    /** `create_data_loader`. `shuffled` stands for the order `random.shuffle`
        leaves the zipped data in. A batch size of 0 makes `range` raise, a
        negative one gives no batches, and a missing configuration key raises. */
    method CreateDataLoader(inputIds: seq<seq<int>>, labels: seq<int>, batchSize: Option<int>,
                            shuffle: bool, shuffled: seq<Example>)
      returns (r: Result<seq<Batch>>)
      requires shuffle ==> multiset(shuffled) == multiset(Zip(inputIds, labels))
      ensures var bs := EffectiveBatchSize(batchSize, config);
        r == if bs.None? || (shuffle && "seed" !in config) then Err("KeyError")
             else if bs.value == 0 then Err("ValueError")
             else if bs.value < 0 then Ok([])
             else Ok(Batches(if shuffle then shuffled else Zip(inputIds, labels), bs.value))
    {
      var bs := EffectiveBatchSize(batchSize, config);
      if bs.None? {
        return Err("KeyError");
      }
      var data := Zip(inputIds, labels);
      if shuffle {
        if "seed" !in config {
          return Err("KeyError");
        }
        data := shuffled;
      }
      if bs.value == 0 {
        return Err("ValueError");
      } else if bs.value < 0 {
        return Ok([]);
      }
      var batches := MakeBatches(data, bs.value);
      r := Ok(batches);
    }
  }

  /** Without shuffling the batches hold the zipped data in order, ⌈n / bs⌉ of
      them, each but the last holding `bs` examples. */
  lemma BatchesKeepOrder(data: seq<Example>, bs: nat)
    requires bs > 0
    ensures Concat(Chunks(data, bs)) == data
    ensures |Batches(data, bs)| == (|data| + bs - 1) / bs
    ensures |Chunks(data, bs)| == |Batches(data, bs)|
    ensures forall k :: 0 <= k < |Batches(data, bs)| ==> Batches(data, bs)[k] == BatchOf(Chunks(data, bs)[k])
    ensures forall k :: 0 <= k < |Chunks(data, bs)| - 1 ==> |Chunks(data, bs)[k]| == bs
  {
    ChunksConcat(data, bs);
    ChunksCount(data, bs);
    BatchesOfChunks(data, bs);
  }

  // ---------------------------------------------------------------------------
  // split_dataset

  datatype Split = Split(train: Dataset, eval: Dataset)

  /** `split_dataset`. `shuffled` stands for the order `random.shuffle` leaves the
      zipped data in. The first int(n · ratio) examples (Python slicing) train and
      the rest evaluate; `zip(*[])` cannot be unpacked, so an empty part raises. */
  function SplitDataset(inputIds: seq<seq<int>>, labels: seq<int>, trainRatio: real, shuffled: seq<Example>)
    : (r: Result<Split>)
    requires multiset(shuffled) == multiset(Zip(inputIds, labels))
    ensures r.Err? <==>
      |SliceTo(shuffled, Trunc(|shuffled| as real * trainRatio))| == 0 ||
      |SliceFrom(shuffled, Trunc(|shuffled| as real * trainRatio))| == 0
    ensures r.Ok? ==> Zip(r.value.train.inputIds, r.value.train.labels) + Zip(r.value.eval.inputIds, r.value.eval.labels) == shuffled
    ensures r.Ok? ==>
      multiset(Zip(r.value.train.inputIds, r.value.train.labels)) + multiset(Zip(r.value.eval.inputIds, r.value.eval.labels)) ==
        multiset(Zip(inputIds, labels))
    ensures r.Ok? && 0.0 <= trainRatio ==>
      |r.value.train.labels| == Trunc(|shuffled| as real * trainRatio) &&
      |r.value.eval.labels| == |shuffled| - Trunc(|shuffled| as real * trainRatio)
  {
    var splitIdx := Trunc(|shuffled| as real * trainRatio);
    var trainData := SliceTo(shuffled, splitIdx);
    var evalData := SliceFrom(shuffled, splitIdx);
    assert shuffled == trainData + evalData;
    if |trainData| == 0 || |evalData| == 0 then Err("ValueError")
    else Ok(Split(Unzip(trainData), Unzip(evalData)))
  }

  /** With a ratio in [0, 1], the split fails exactly when int(n · ratio) is 0 or n. */
  lemma SplitFailsAtEnds(inputIds: seq<seq<int>>, labels: seq<int>, trainRatio: real, shuffled: seq<Example>)
    requires multiset(shuffled) == multiset(Zip(inputIds, labels))
    requires 0.0 <= trainRatio <= 1.0
    ensures SplitDataset(inputIds, labels, trainRatio, shuffled).Err? <==>
      Trunc(|shuffled| as real * trainRatio) == 0 || Trunc(|shuffled| as real * trainRatio) == |shuffled|
  {
    TruncOfFraction(|shuffled|, trainRatio);
  }

  lemma TruncOfFraction(n: nat, ratio: real)
    requires 0.0 <= ratio <= 1.0
    ensures 0 <= Trunc(n as real * ratio) <= n
  {
    assert n as real * ratio <= n as real;
  }

  // ---------------------------------------------------------------------------
  // load_tokenized_dataset

  /** What one line of the file contributes: nothing (blank, or no comma), a
      parsed pair, or a parse error, which aborts the whole load. */
  datatype LineParse = Blank | NoComma | Parsed(tokens: seq<int>, movement: int) | Invalid

  /** `list(map(int, words))`: None when a word is not an integer. */
  function ParseInts(words: seq<string>): (r: Option<seq<int>>)
    ensures r.Some? ==> |r.value| == |words|
  {
    if |words| == 0 then Some([])
    else
      var head := ParseInt(words[0]);
      var rest := ParseInts(words[1..]);
      if head.Some? && rest.Some? then Some([head.value] + rest.value) else None
  }

  /** One data line: stripped, split at its first comma, the left part read as
      space-separated integers and the right part as one integer. */
  function ParseDataLine(line: string): LineParse
  {
    var s := Strip(line);
    if s == "" then Blank
    else
      var k := IndexOf(s, ',');
      if k == |s| then NoComma
      else
        var tokens := ParseInts(Words(s[..k]));
        var movement := ParseInt(s[k + 1..]);
        if tokens.None? || movement.None? then Invalid else Parsed(tokens.value, movement.value)
  }

  /** A blank line and a line without a comma are skipped. */
  lemma ParseDataLineSkips(line: string)
    ensures ParseDataLine(line).Blank? <==> Strip(line) == ""
    ensures ParseDataLine(line).NoComma? <==> Strip(line) != "" && ',' !in Strip(line)
  {
    var s := Strip(line);
    if s != "" && IndexOf(s, ',') == |s| {
      forall c | c in s ensures c != ',' {
        var j :| 0 <= j < |s| && s[j] == c;
      }
    }
  }

  /** Any other line is split at its first comma. */
  lemma ParseDataLineSplits(line: string)
    requires ParseDataLine(line).Parsed?
    ensures exists k :: (0 <= k < |Strip(line)| && Strip(line)[k] == ',' && ',' !in Strip(line)[..k] &&
                         ParseInts(Words(Strip(line)[..k])) == Some(ParseDataLine(line).tokens) &&
                         ParseInt(Strip(line)[k + 1..]) == Some(ParseDataLine(line).movement))
  {
    var s := Strip(line);
    var k := IndexOf(s, ',');
    assert forall j :: 0 <= j < k ==> s[..k][j] != ',';
    assert ',' !in s[..k];
  }

  /** The lines after the header: the first line is dropped when its stripped text
      starts with "input_ids,labels". */
  function DataLines(lines: seq<string>): (r: seq<string>)
    ensures r == lines || (|lines| > 0 && r == lines[1..])
  {
    if |lines| > 0 && StartsWith(Strip(lines[0]), "input_ids,labels") then lines[1..] else lines
  }

  function LineParses(lines: seq<string>): (r: seq<LineParse>)
    ensures |r| == |lines| && forall i :: 0 <= i < |lines| ==> r[i] == ParseDataLine(lines[i])
  {
    seq(|lines|, i requires 0 <= i < |lines| => ParseDataLine(lines[i]))
  }

  /** The lists read from the first `n` lines, or None once a line has failed. */
  function LoadRows(parses: seq<LineParse>, n: nat): Option<Dataset>
    requires n <= |parses|
  {
    if n == 0 then Some(Dataset([], []))
    else
      match LoadRows(parses, n - 1)
      case None => None
      case Some(d) =>
        match parses[n - 1]
        case Parsed(tokens, movement) => Some(Dataset(d.inputIds + [tokens], d.labels + [movement]))
        case Invalid => None
        case _ => Some(d)
  }

  /** What `load_tokenized_dataset` returns: `file` is None when the file cannot
      be opened, otherwise its lines; any error yields two empty lists. */
  function LoadedDataset(file: Option<seq<string>>): Dataset
  {
    match file
    case None => Dataset([], [])
    case Some(lines) =>
      var parses := LineParses(DataLines(lines));
      match LoadRows(parses, |parses|)
      case None => Dataset([], [])
      case Some(d) => d
  }

  lemma {:induction false} FailureStays(parses: seq<LineParse>, i: nat, n: nat)
    requires i <= n <= |parses|
    requires LoadRows(parses, i).None?
    ensures LoadRows(parses, n).None?
    decreases n - i
  {
    if i < n { FailureStays(parses, i + 1, n); }
  }

  lemma InvalidAborts(parses: seq<LineParse>, i: nat)
    requires i < |parses| && parses[i].Invalid?
    ensures LoadRows(parses, |parses|).None?
  {
    if LoadRows(parses, i).Some? {
      assert LoadRows(parses, i + 1).None?;
      FailureStays(parses, i + 1, |parses|);
    } else {
      FailureStays(parses, i, |parses|);
    }
  }

  /** One unparsable data line anywhere discards everything read. */
  lemma InvalidLineEmpties(lines: seq<string>, i: nat)
    requires i < |DataLines(lines)| && ParseDataLine(DataLines(lines)[i]).Invalid?
    ensures LoadedDataset(Some(lines)) == Dataset([], [])
  {
    InvalidAborts(LineParses(DataLines(lines)), i);
  }

  /** `load_tokenized_dataset`'s loop. */
  method ReadRows(parses: seq<LineParse>) returns (r: Option<Dataset>)
    ensures r == LoadRows(parses, |parses|)
  {
    var inputIds: seq<seq<int>> := [];
    var labels: seq<int> := [];
    var i := 0;
    while i < |parses|
      invariant i <= |parses|
      invariant LoadRows(parses, i) == Some(Dataset(inputIds, labels))
    {
      var parse := parses[i];
      if parse.Invalid? {
        FailureStays(parses, i + 1, |parses|);
        return None;
      }
      if parse.Parsed? {
        inputIds := inputIds + [parse.tokens];
        labels := labels + [parse.movement];
      }
      i := i + 1;
    }
    r := Some(Dataset(inputIds, labels));
  }

  /** `load_tokenized_dataset`. */
  method LoadTokenizedDataset(file: Option<seq<string>>) returns (inputIds: seq<seq<int>>, labels: seq<int>)
    ensures Dataset(inputIds, labels) == LoadedDataset(file)
  {
    if file.None? {
      return [], [];
    }
    var read := ReadRows(LineParses(DataLines(file.value)));
    if read.None? {
      return [], [];
    }
    inputIds, labels := read.value.inputIds, read.value.labels;
  }

  // ---------------------------------------------------------------------------
  // The round trip with save_tokenized_data

  function Shown(tokens: seq<int>): (ws: seq<string>)
    ensures |ws| == |tokens| && forall k :: 0 <= k < |ws| ==> ws[k] == ShowInt(tokens[k])
  {
    seq(|tokens|, k requires 0 <= k < |tokens| => ShowInt(tokens[k]))
  }

  lemma {:induction false} ParseShownInts(tokens: seq<int>)
    ensures ParseInts(Shown(tokens)) == Some(tokens)
  {
    if |tokens| > 0 {
      var ws := Shown(tokens);
      assert ws[0] == ShowInt(tokens[0]);
      ParseShowInt(tokens[0]);
      assert ws[1..] == Shown(tokens[1..]);
      ParseShownInts(tokens[1..]);
      assert tokens == [tokens[0]] + tokens[1..];
    }
  }

  /** A join of comma-free words has no comma and starts with the first word. */
  lemma {:induction false} JoinedWordsShape(ws: seq<string>)
    requires forall i :: 0 <= i < |ws| ==> |ws[i]| > 0 && ',' !in ws[i]
    ensures ',' !in JoinWords(ws)
    ensures |ws| > 0 ==> |JoinWords(ws)| > 0 && JoinWords(ws)[0] == ws[0][0]
  {
    if |ws| > 1 {
      JoinedWordsShape(ws[1..]);
    }
  }

  /** A line whose stripped text is `left + "," + right`, with no comma in
      `left`, is read from those two parts. */
  lemma ParseDataLineAt(line: string, left: string, right: string)
    requires Strip(line) == left + "," + right && ',' !in left
    ensures ParseDataLine(line) ==
      var tokens := ParseInts(Words(left));
      var movement := ParseInt(right);
      if tokens.None? || movement.None? then Invalid else Parsed(tokens.value, movement.value)
  {
    var s := Strip(line);
    IndexOfFirst(s, ',', |left|);
    assert s[..|left|] == left;
    assert s[|left| + 1..] == right;
  }

  /** The text of a saved line, before its newline, has no whitespace at either
      end and one comma, after the tokens. */
  lemma SavedLineShape(tokens: seq<int>, movement: int)
    ensures Strip(SavedLine(tokens, movement)) == JoinWords(Shown(tokens)) + "," + ShowInt(movement)
    ensures ',' !in JoinWords(Shown(tokens))
  {
    var ws := Shown(tokens);
    var s := JoinWords(ws) + "," + ShowInt(movement);
    assert SavedLine(tokens, movement) == s + "\n";
    JoinedWordsShape(ws);
    assert !IsSpace(s[0]);
    StripNewline(s);
  }

  /** A saved line reads back as the pair it was written from. */
  lemma ParseSavedLine(tokens: seq<int>, movement: int)
    ensures ParseDataLine(SavedLine(tokens, movement)) == Parsed(tokens, movement)
  {
    var ws := Shown(tokens);
    var left, right := JoinWords(ws), ShowInt(movement);
    WordsOfJoin(ws);
    ParseShownInts(tokens);
    ParseShowInt(movement);
    assert ParseInts(Words(left)) == Some(tokens) && ParseInt(right) == Some(movement);
    SavedLineShape(tokens, movement);
    ParseDataLineAt(SavedLine(tokens, movement), left, right);
  }

  lemma {:induction false} SavedRowsAt(inputIds: seq<seq<int>>, labels: seq<int>)
    ensures forall i :: 0 <= i < |SavedRows(inputIds, labels)| ==>
      SavedRows(inputIds, labels)[i] == SavedLine(inputIds[i], labels[i])
  {
    if |inputIds| > 0 && |labels| > 0 {
      SavedRowsAt(inputIds[1..], labels[1..]);
    }
  }

  lemma {:induction false} LoadRowsOfPairs(parses: seq<LineParse>, inputIds: seq<seq<int>>, labels: seq<int>, n: nat)
    requires n <= |parses| && n <= |inputIds| && n <= |labels|
    requires forall i :: 0 <= i < n ==> parses[i] == Parsed(inputIds[i], labels[i])
    ensures LoadRows(parses, n) == Some(Dataset(inputIds[..n], labels[..n]))
  {
    if n > 0 {
      LoadRowsOfPairs(parses, inputIds, labels, n - 1);
      assert inputIds[..n] == inputIds[..n - 1] + [inputIds[n - 1]];
      assert labels[..n] == labels[..n - 1] + [labels[n - 1]];
    }
  }

  /** Loading what `save_tokenized_data` wrote gives back the saved pairs: the
      zip of the two lists, so as many as the shorter list holds. */
  lemma LoadSaved(inputIds: seq<seq<int>>, labels: seq<int>)
    ensures LoadedDataset(Some(SavedLines(inputIds, labels))) ==
      Dataset(inputIds[..MinInt(|inputIds|, |labels|)], labels[..MinInt(|inputIds|, |labels|)])
  {
    var lines := SavedLines(inputIds, labels);
    var header := "input_ids,labels";
    StripNewline(header);
    assert lines[0] == header + "\n";
    assert StartsWith(Strip(lines[0]), header);
    var rows := SavedRows(inputIds, labels);
    assert DataLines(lines) == rows;
    SavedRowsAt(inputIds, labels);
    var parses := LineParses(rows);
    forall i | 0 <= i < |parses| ensures parses[i] == Parsed(inputIds[i], labels[i]) {
      ParseSavedLine(inputIds[i], labels[i]);
    }
    LoadRowsOfPairs(parses, inputIds, labels, |parses|);
  }
}
