/** The pure parts of `BertJointIntentSlotDataset` and
    `BertJointIntentSlotInferDataset`: the file lines are paired, shuffled
    and sampled, parsed into queries, slot rows and intents, and handed to
    `get_features`. Reading the files is left to the caller, who passes their
    lines; the random draws of `random.shuffle` and Python's `int()` are
    parameters too. */
module Datasets {
  import opened SeqOps
  import opened Results
  import opened Text
  import opened Subtokens
  import opened Features

  /** The default `pad_label` of both the dataset and `get_features`. */
  const DefaultPadLabel := 128

  // ---------------------------------------------------------------------
  // Pairing, shuffling and sampling.

  /** One line of the slot file together with the input-file line of the same example. */
  datatype Pair = Pair(slotLine: string, inputLine: string)

  /** Python's `list(zip(a, b))`: pairs up to the shorter list. */
  function Zip(a: seq<string>, b: seq<string>): (r: seq<Pair>)
    ensures |r| == Min(|a|, |b|)
    ensures forall i :: 0 <= i < |r| ==> r[i].slotLine == a[i] && r[i].inputLine == b[i]
  {
    seq(Min(|a|, |b|), i requires 0 <= i < Min(|a|, |b|) => Pair(a[i], b[i]))
  }

  /** Elements i and j of s exchanged. */
  function Swap<T>(s: seq<T>, i: nat, j: nat): (r: seq<T>)
    requires i < |s| && j < |s|
    ensures |r| == |s|
    ensures r[i] == s[j] && r[j] == s[i]
    ensures forall k {:trigger r[k]} :: 0 <= k < |s| && k != i && k != j ==> r[k] == s[k]
    ensures multiset(r) == multiset(s)
  {
    s[i := s[j]][j := s[i]]
  }

  /** The values `random.shuffle` draws for a list of n elements: on step k
      (k = 0, 1, ...) it handles position i = n - 1 - k, down to position 1,
      and draws one index in [0, i]. */
  predicate ValidDraws(draws: seq<int>, n: nat)
  {
    && |draws| == (if n > 1 then n - 1 else 0)
    && forall k :: 0 <= k < |draws| ==> 0 <= draws[k] <= n - 1 - k
  }

  /** The first k steps of `random.shuffle`'s Fisher-Yates loop: step k
      exchanges position |s| - k with the drawn index. Every step only
      reorders, so every element is kept, as often as before. */
  function ShuffleSteps<T>(s: seq<T>, draws: seq<int>, k: nat): (r: seq<T>)
    requires ValidDraws(draws, |s|)
    requires k <= |draws|
    ensures |r| == |s|
    ensures multiset(r) == multiset(s)
  {
    if k == 0 then s
    else Swap(ShuffleSteps(s, draws, k - 1), |s| - k, draws[k - 1])
  }

  /** `random.shuffle(s)` with the given draws: a permutation of s. */
  function Shuffle<T>(s: seq<T>, draws: seq<int>): (r: seq<T>)
    requires ValidDraws(draws, |s|)
    ensures |r| == |s|
    ensures multiset(r) == multiset(s)
  {
    ShuffleSteps(s, draws, |draws|)
  }

  /** Lines 186-189: the pairs are shuffled when `shuffle` is set or a
      positive sample count is asked for, and then the first `num_samples`
      are kept when that count is positive. */
  function Select(pairs: seq<Pair>, numSamples: int, shuffle: bool, draws: seq<int>): (r: seq<Pair>)
    requires ValidDraws(draws, |pairs|)
    ensures |r| == if numSamples > 0 then Min(numSamples, |pairs|) else |pairs|
    ensures !shuffle && numSamples <= 0 ==> r == pairs
  {
    var shuffled := if shuffle || numSamples > 0 then Shuffle(pairs, draws) else pairs;
    if numSamples > 0 then shuffled[..Min(numSamples, |shuffled|)] else shuffled
  }

  /** The selected pairs are drawn from the input without repetition, and
      all of them are selected when no positive count below the total is asked for. */
  lemma SelectDrawsFromInput(pairs: seq<Pair>, numSamples: int, shuffle: bool, draws: seq<int>)
    requires ValidDraws(draws, |pairs|)
    ensures multiset(Select(pairs, numSamples, shuffle, draws)) <= multiset(pairs)
    ensures numSamples <= 0 || numSamples >= |pairs| ==>
              multiset(Select(pairs, numSamples, shuffle, draws)) == multiset(pairs)
  {
    var shuffled := if shuffle || numSamples > 0 then Shuffle(pairs, draws) else pairs;
    if numSamples > 0 {
      var m := Min(numSamples, |shuffled|);
      assert shuffled == shuffled[..m] + shuffled[m..];
      assert multiset(shuffled) == multiset(shuffled[..m]) + multiset(shuffled[m..]);
      if numSamples >= |pairs| {
        assert shuffled[..m] == shuffled;
      }
    }
  }

  // ---------------------------------------------------------------------
  // Parsing one example.

  /** `[int(t) for t in toks]`, with Python's `int()` given as `parseInt`
      (None where it would raise ValueError). The first failure is the one raised. */
  function ParseInts(toks: seq<string>, parseInt: string -> Option<int>): (r: Result<seq<int>>)
    ensures r.Ok? <==> forall i :: 0 <= i < |toks| ==> parseInt(toks[i]).Some?
    ensures r.Err? ==> r.error == NotAnInteger
    ensures r.Ok? ==> |r.value| == |toks|
    ensures r.Ok? ==> forall i :: 0 <= i < |toks| ==> parseInt(toks[i]) == Some(r.value[i])
    decreases |toks|
  {
    if toks == [] then Ok([])
    else
      var n := |toks| - 1;
      assert forall i :: 0 <= i < n ==> toks[..n][i] == toks[i];
      match ParseInts(toks[..n], parseInt)
      case Err(e) => Err(e)
      case Ok(vs) =>
        match parseInt(toks[n])
        case None => Err(NotAnInteger)
        case Some(v) => Ok(vs + [v])
  }

  /** One example after parsing: its slot row, its query and its intent. */
  datatype Example = Example(labels: seq<int>, query: string, intent: int)

  /** Lines 194-196 on an input line: the last whitespace-separated token is
      the intent, and the others, joined by single spaces, are the query. A
      line with no token raises IndexError on `parts[-1]`. */
  function ParseInputLine(line: string, parseInt: string -> Option<int>): (r: Result<(string, int)>)
    ensures r.Err? <==> Words(line) == [] || parseInt(Words(line)[|Words(line)| - 1]).None?
    ensures r.Err? ==> r.error == if Words(line) == [] then IndexOutOfRange else NotAnInteger
    ensures r.Ok? ==> Some(r.value.1) == parseInt(Words(line)[|Words(line)| - 1])
  {
    var parts := Words(line);
    if |parts| == 0 then Err(IndexOutOfRange)
    else
      match parseInt(parts[|parts| - 1])
      case None => Err(NotAnInteger)
      case Some(intent) => Ok((Join(parts[..|parts| - 1]), intent))
  }

  /** The query rebuilt from an input line splits, as `get_features` splits
      it, into exactly the line's tokens without the trailing intent. */
  lemma ParseInputLineQueryWords(line: string, parseInt: string -> Option<int>)
    requires ParseInputLine(line, parseInt).Ok?
    ensures var parts := Words(line);
      Words(ParseInputLine(line, parseInt).value.0) == parts[..|parts| - 1]
  {
    var parts := Words(line);
    var front := parts[..|parts| - 1];
    SplitGivesWords(Strip(line));
    assert forall i :: 0 <= i < |front| ==> IsWord(front[i]) by {
      forall i | 0 <= i < |front| ensures IsWord(front[i]) {
        assert front[i] == parts[i];
      }
    }
    SplitJoin(front);
    SplitIgnoresStrip(Join(front));
  }

  /** Lines 193-196 for one pair: the slot line is parsed first, then the input line. */
  function ParseExample(p: Pair, parseInt: string -> Option<int>): (r: Result<Example>)
    ensures r.Ok? <==> ParseInts(Words(p.slotLine), parseInt).Ok? && ParseInputLine(p.inputLine, parseInt).Ok?
    ensures r.Err? ==> r.error == if ParseInts(Words(p.slotLine), parseInt).Err? then NotAnInteger
                                  else ParseInputLine(p.inputLine, parseInt).error
    ensures r.Ok? ==>
      && r.value.labels == ParseInts(Words(p.slotLine), parseInt).value
      && (r.value.query, r.value.intent) == ParseInputLine(p.inputLine, parseInt).value
  {
    match ParseInts(Words(p.slotLine), parseInt)
    case Err(e) => Err(e)
    case Ok(labels) =>
      match ParseInputLine(p.inputLine, parseInt)
      case Err(e) => Err(e)
      case Ok(qi) => Ok(Example(labels, qi.0, qi.1))
  }

  /** The parsing loop (lines 191-196) over the selected pairs, in order; the
      first pair that fails decides the error. */
  function ParseAll(pairs: seq<Pair>, parseInt: string -> Option<int>): (r: Result<seq<Example>>)
    ensures r.Ok? <==> forall i :: 0 <= i < |pairs| ==> ParseExample(pairs[i], parseInt).Ok?
    ensures r.Ok? ==> |r.value| == |pairs|
    ensures r.Ok? ==> forall i :: 0 <= i < |pairs| ==> ParseExample(pairs[i], parseInt) == Ok(r.value[i])
    ensures r.Err? ==> exists i :: 0 <= i < |pairs| && ParseExample(pairs[i], parseInt) == Err(r.error)
                         && forall j :: 0 <= j < i ==> ParseExample(pairs[j], parseInt).Ok?
  {
    var steps := seq(|pairs|, i requires 0 <= i < |pairs| => ParseExample(pairs[i], parseInt));
    assert forall i :: 0 <= i < |pairs| ==> steps[i] == ParseExample(pairs[i], parseInt);
    Each(steps)
  }

  function Queries(exs: seq<Example>): (qs: seq<string>)
    ensures |qs| == |exs|
  {
    seq(|exs|, i requires 0 <= i < |exs| => exs[i].query)
  }

  function SlotRows(exs: seq<Example>): (rows: seq<seq<int>>)
    ensures |rows| == |exs|
  {
    seq(|exs|, i requires 0 <= i < |exs| => exs[i].labels)
  }

  function Intents(exs: seq<Example>): (intents: seq<int>)
    ensures |intents| == |exs|
  {
    seq(|exs|, i requires 0 <= i < |exs| => exs[i].intent)
  }

  // ---------------------------------------------------------------------
  // The two datasets.

  /** What a labelled dataset holds: the five feature lists and the intents. */
  datatype Dataset = Dataset(features: Features, intents: seq<int>)

  /** `len(dataset)`: the number of id rows. */
  function Len(d: Dataset): nat
  {
    |d.features.inputIds|
  }

  /** The examples a labelled dataset is built from: lines 173-196 up to the
      call of `get_features`. `inputFileLines` still holds the header line. */
  function SelectedExamples(slotLines: seq<string>, inputFileLines: seq<string>, numSamples: int,
                            shuffle: bool, draws: seq<int>, parseInt: string -> Option<int>): (r: Result<seq<Example>>)
    requires ValidDraws(draws, |slotLines|)
    ensures numSamples == 0 ==> r == Err(ZeroSamples)
    ensures numSamples != 0 && |slotLines| != |SliceFrom(inputFileLines, 1)| ==> r == Err(LineCountMismatch)
    ensures r.Ok? ==> |r.value| == if numSamples > 0 then Min(numSamples, |slotLines|) else |slotLines|
    ensures numSamples != 0 && |slotLines| == |SliceFrom(inputFileLines, 1)| ==>
      var kept := Select(Zip(slotLines, SliceFrom(inputFileLines, 1)), numSamples, shuffle, draws);
      && (r.Ok? <==> forall j :: 0 <= j < |kept| ==> ParseExample(kept[j], parseInt).Ok?)
      && (r.Ok? ==> forall j :: 0 <= j < |kept| ==> ParseExample(kept[j], parseInt) == Ok(r.value[j]))
      && (r.Err? ==> exists j :: 0 <= j < |kept| && ParseExample(kept[j], parseInt) == Err(r.error)
                                && forall j' :: 0 <= j' < j ==> ParseExample(kept[j'], parseInt).Ok?)
  {
    if numSamples == 0 then Err(ZeroSamples)
    else
      var inputLines := SliceFrom(inputFileLines, 1);
      if |slotLines| != |inputLines| then Err(LineCountMismatch)
      else ParseAll(Select(Zip(slotLines, inputLines), numSamples, shuffle, draws), parseInt)
  }

  /** `BertJointIntentSlotDataset(input_file, slot_file, max_seq_length,
      tokenizer, num_samples, shuffle, pad_label)`, given the lines of both
      files, the draws of the shuffle, and `int()`. */
  function BuildDataset(slotLines: seq<string>, inputFileLines: seq<string>, maxSeqLength: int,
                        tok: Tokenizer, numSamples: int, shuffle: bool, padLabel: int,
                        draws: seq<int>, parseInt: string -> Option<int>): (r: Result<Dataset>)
    requires ValidDraws(draws, |slotLines|)
    ensures numSamples == 0 ==> r == Err(ZeroSamples)
    ensures numSamples != 0 && |slotLines| != |SliceFrom(inputFileLines, 1)| ==> r == Err(LineCountMismatch)
    ensures r.Ok? ==>
      && |slotLines| > 0
      && Len(r.value) == |r.value.intents|
      && Len(r.value) == (if numSamples > 0 then Min(numSamples, |slotLines|) else |slotLines|)
      && |r.value.features.inputMasks| == 2 * Len(r.value)
      && |r.value.features.slots| == Len(r.value)
    ensures var exs := SelectedExamples(slotLines, inputFileLines, numSamples, shuffle, draws, parseInt);
      && (r.Ok? <==> exs.Ok? && Accepted(Queries(exs.value), Some(SlotRows(exs.value))))
      && (exs.Err? ==> r == Err(exs.error))
      && (exs.Ok? && !Accepted(Queries(exs.value), Some(SlotRows(exs.value))) ==>
            r == Err(if |exs.value| == 0 then EmptyBatch else IndexOutOfRange))
    ensures r.Ok? ==>
      var exs := SelectedExamples(slotLines, inputFileLines, numSamples, shuffle, draws, parseInt);
      && exs.Ok?
      && r.value.intents == Intents(exs.value)
      && Ok(r.value.features) == GetFeatures(Queries(exs.value), maxSeqLength, tok, padLabel, Some(SlotRows(exs.value)))
  {
    match SelectedExamples(slotLines, inputFileLines, numSamples, shuffle, draws, parseInt)
    case Err(e) => Err(e)
    case Ok(exs) =>
      match GetFeatures(Queries(exs), maxSeqLength, tok, padLabel, Some(SlotRows(exs)))
      case Err(e) => Err(e)
      case Ok(f) => Ok(Dataset(f, Intents(exs)))
  }

  /** Both files are well formed: the input file has a header line and then
      one line per slot line, and every line pair parses. */
  predicate WellFormedFiles(slotLines: seq<string>, inputFileLines: seq<string>, parseInt: string -> Option<int>)
  {
    && |inputFileLines| == |slotLines| + 1
    && forall k :: 0 <= k < |slotLines| ==> ParseExample(Pair(slotLines[k], inputFileLines[k + 1]), parseInt).Ok?
  }

  /** The pairs of well-formed files, in file order. */
  lemma FilePairs(slotLines: seq<string>, inputFileLines: seq<string>, parseInt: string -> Option<int>)
    requires WellFormedFiles(slotLines, inputFileLines, parseInt)
    ensures var pairs := Zip(slotLines, SliceFrom(inputFileLines, 1));
      && |pairs| == |slotLines|
      && forall k :: 0 <= k < |pairs| ==> pairs[k] == Pair(slotLines[k], inputFileLines[k + 1])
  {
  }

  /** Well-formed files are accepted whatever the shuffle draws and whichever
      non-zero sample count is asked for; every selected example is then the
      parse of one line pair of the files. */
  lemma SelectedFromSomeLine(slotLines: seq<string>, inputFileLines: seq<string>, numSamples: int,
                             shuffle: bool, draws: seq<int>, parseInt: string -> Option<int>, i: nat)
    requires ValidDraws(draws, |slotLines|)
    requires numSamples != 0
    requires WellFormedFiles(slotLines, inputFileLines, parseInt)
    requires i < if numSamples > 0 then Min(numSamples, |slotLines|) else |slotLines|
    ensures SelectedExamples(slotLines, inputFileLines, numSamples, shuffle, draws, parseInt).Ok?
    ensures exists k ::
              && 0 <= k < |slotLines|
              && ParseExample(Pair(slotLines[k], inputFileLines[k + 1]), parseInt)
                 == Ok(SelectedExamples(slotLines, inputFileLines, numSamples, shuffle, draws, parseInt).value[i])
  {
    var pairs := Zip(slotLines, SliceFrom(inputFileLines, 1));
    FilePairs(slotLines, inputFileLines, parseInt);
    var kept := Select(pairs, numSamples, shuffle, draws);
    assert forall j :: 0 <= j < |kept| ==> kept[j] in pairs by {
      SelectDrawsFromInput(pairs, numSamples, shuffle, draws);
      forall j | 0 <= j < |kept| ensures kept[j] in pairs {
        assert kept[j] in multiset(kept);
      }
    }
    assert ParseAll(kept, parseInt).Ok? by {
      forall j | 0 <= j < |kept| ensures ParseExample(kept[j], parseInt).Ok? {
        var k :| 0 <= k < |pairs| && pairs[k] == kept[j];
      }
    }
    var exs := ParseAll(kept, parseInt).value;
    assert ParseExample(kept[i], parseInt) == Ok(exs[i]);
    var k :| 0 <= k < |pairs| && pairs[k] == kept[i];
    assert ParseExample(Pair(slotLines[k], inputFileLines[k + 1]), parseInt) == Ok(exs[i]);
  }

  /** Without shuffling and sampling, example i of well-formed files is built
      from line i of the slot file and line i + 1 of the input file (line 0 is
      the header): its labels are the slot line's integers, its intent is the
      input line's last token, and its query splits into that line's other tokens. */
  lemma SelectedInFileOrder(slotLines: seq<string>, inputFileLines: seq<string>, numSamples: int,
                            draws: seq<int>, parseInt: string -> Option<int>, i: nat)
    requires ValidDraws(draws, |slotLines|)
    requires numSamples < 0
    requires WellFormedFiles(slotLines, inputFileLines, parseInt)
    requires i < |slotLines|
    ensures SelectedExamples(slotLines, inputFileLines, numSamples, false, draws, parseInt).Ok?
    ensures var ex := SelectedExamples(slotLines, inputFileLines, numSamples, false, draws, parseInt).value[i];
      var parts := Words(inputFileLines[i + 1]);
      && ParseInts(Words(slotLines[i]), parseInt) == Ok(ex.labels)
      && |parts| > 0
      && Some(ex.intent) == parseInt(parts[|parts| - 1])
      && Words(ex.query) == parts[..|parts| - 1]
  {
    var pairs := Zip(slotLines, SliceFrom(inputFileLines, 1));
    FilePairs(slotLines, inputFileLines, parseInt);
    assert Select(pairs, numSamples, false, draws) == pairs;
    assert ParseAll(pairs, parseInt).Ok?;
    assert ParseExample(pairs[i], parseInt).Ok?;
    ParseInputLineQueryWords(inputFileLines[i + 1], parseInt);
  }

  /** Every example of the files has a slot label for each word of its query,
      the input line's tokens other than the trailing intent. */
  predicate FileLabelsCover(slotLines: seq<string>, inputFileLines: seq<string>)
  {
    forall k :: 0 <= k < |slotLines| && k + 1 < |inputFileLines| ==>
      |Words(inputFileLines[k + 1])| <= |Words(slotLines[k])| + 1
  }

  /** The dataset of well-formed files whose slot lines cover their queries,
      read without shuffling or sampling: it is built exactly when the files
      hold an example (an empty batch fails in `max()`), it has one entry per
      slot line, and intent k is the last token of input line k + 1. */
  lemma BuildDatasetInFileOrder(slotLines: seq<string>, inputFileLines: seq<string>,
                                maxSeqLength: int, tok: Tokenizer, numSamples: int,
                                padLabel: int, draws: seq<int>, parseInt: string -> Option<int>)
    requires ValidDraws(draws, |slotLines|)
    requires numSamples < 0
    requires WellFormedFiles(slotLines, inputFileLines, parseInt)
    requires FileLabelsCover(slotLines, inputFileLines)
    ensures var r := BuildDataset(slotLines, inputFileLines, maxSeqLength, tok, numSamples, false, padLabel,
                                  draws, parseInt);
      && (r.Ok? <==> |slotLines| > 0)
      && (r.Err? ==> r.error == EmptyBatch)
      && (r.Ok? ==> Len(r.value) == |slotLines|)
      && (r.Ok? ==> forall k :: 0 <= k < |slotLines| ==>
            var parts := Words(inputFileLines[k + 1]);
            |parts| > 0 && Some(r.value.intents[k]) == parseInt(parts[|parts| - 1]))
  {
    FileOrderExamples(slotLines, inputFileLines, numSamples, draws, parseInt);
  }

  /** The examples behind `BuildDatasetInFileOrder`: one per slot line, each
      query covered by its labels, and intent k read from input line k + 1. */
  lemma FileOrderExamples(slotLines: seq<string>, inputFileLines: seq<string>, numSamples: int,
                          draws: seq<int>, parseInt: string -> Option<int>)
    requires ValidDraws(draws, |slotLines|)
    requires numSamples < 0
    requires WellFormedFiles(slotLines, inputFileLines, parseInt)
    requires FileLabelsCover(slotLines, inputFileLines)
    ensures var sel := SelectedExamples(slotLines, inputFileLines, numSamples, false, draws, parseInt);
      && sel.Ok?
      && |sel.value| == |slotLines|
      && (Accepted(Queries(sel.value), Some(SlotRows(sel.value))) <==> |slotLines| > 0)
      && forall k :: 0 <= k < |slotLines| ==>
           var parts := Words(inputFileLines[k + 1]);
           |parts| > 0 && Some(Intents(sel.value)[k]) == parseInt(parts[|parts| - 1])
  {
    var sel := SelectedExamples(slotLines, inputFileLines, numSamples, false, draws, parseInt);
    if |slotLines| == 0 {
      assert sel.Ok? by {
        var pairs := Zip(slotLines, SliceFrom(inputFileLines, 1));
        assert Select(pairs, numSamples, false, draws) == pairs;
      }
    } else {
      SelectedInFileOrder(slotLines, inputFileLines, numSamples, draws, parseInt, 0);
      var exs := sel.value;
      forall k | 0 <= k < |slotLines|
        ensures LabelsCover(Words(Queries(exs)[k]), Some(SlotRows(exs)), k)
        ensures var parts := Words(inputFileLines[k + 1]);
                |parts| > 0 && Some(Intents(exs)[k]) == parseInt(parts[|parts| - 1])
      {
        SelectedInFileOrder(slotLines, inputFileLines, numSamples, draws, parseInt, k);
        assert Queries(exs)[k] == exs[k].query;
        assert RowLabels(SlotRows(exs), k) == exs[k].labels;
      }
    }
  }

  /** `BertJointIntentSlotInferDataset(queries, max_seq_length, tokenizer)`:
      the features of an unlabelled batch with the default pad label. */
  function BuildInferDataset(queries: seq<string>, maxSeqLength: int, tok: Tokenizer): (r: Result<Features>)
    ensures r.Ok? <==> |queries| > 0
    ensures r.Err? ==> r.error == EmptyBatch
    ensures r.Ok? ==>
      && |r.value.inputIds| == |queries|
      && |r.value.segmentIds| == |queries|
      && |r.value.inputMasks| == 2 * |queries|
      && |r.value.slotMasks| == |queries|
      && r.value.slots == []
  {
    GetFeatures(queries, maxSeqLength, tok, DefaultPadLabel, None)
  }

  /** The queries keep their input order: row i of an inference dataset is
      built from query i alone, by the unlabelled first pass on its words and
      the second pass at the batch's effective length. */
  lemma BuildInferDatasetEntry(queries: seq<string>, maxSeqLength: int, tok: Tokenizer, i: nat)
    requires i < |queries|
    ensures BuildInferDataset(queries, maxSeqLength, tok).Ok?
    ensures var f := BuildInferDataset(queries, maxSeqLength, tok).value;
      var raw := RawOf(queries, maxSeqLength, tok, DefaultPadLabel, None, i);
      var rec := BuildRecord(raw, BatchLength(queries, maxSeqLength, tok, DefaultPadLabel, None),
                             tok.toId, DefaultPadLabel);
      && Expand(Words(queries[i]), tok.tokenize, false, [], DefaultPadLabel) == Ok(raw)
      && f.inputIds[i] == rec.inputIds
      && f.segmentIds[i] == rec.segmentIds
      && f.inputMasks[i] == rec.inputMask
      && f.inputMasks[|queries| + i] == rec.unpaddedMask
      && f.slotMasks[i] == rec.slotMask
  {
    GetFeaturesEntry(queries, maxSeqLength, tok, DefaultPadLabel, None, i);
    RawOfExpansion(queries, maxSeqLength, tok, DefaultPadLabel, None, i);
  }
}
