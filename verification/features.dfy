/** `get_features`: the raw examples of a batch of queries are cut or padded to
    one effective length L, the minimum of the configured maximum and the
    longest raw example, and returned as five parallel lists. */
module Features {
  import opened SeqOps
  import opened Results
  import opened Text
  import opened Subtokens

  /** The words of a query: `query.strip().split()`. */
  function Words(query: string): seq<string>
  {
    Split(Strip(query))
  }

  /** Row i of `raw_slots`. A row past the end of the list is read as an empty
      row: both raise IndexError exactly when the query has a word, because
      `raw_slots[i][j]` is only evaluated inside the loop over the words. */
  function RowLabels(rawSlots: seq<seq<int>>, i: nat): seq<int>
  {
    if i < |rawSlots| then rawSlots[i] else []
  }

  /** The labels passed to the expansion of query i; unlabelled batches have none. */
  function LabelsOf(rawSlots: Option<seq<seq<int>>>, i: nat): seq<int>
  {
    if rawSlots.Some? then RowLabels(rawSlots.value, i) else []
  }

  /** The i-th query of a batch, split into `words`, has a label for each
      word, or the batch is unlabelled. */
  predicate LabelsCover(words: seq<string>, rawSlots: Option<seq<seq<int>>>, i: nat)
  {
    rawSlots.None? || |words| <= |RowLabels(rawSlots.value, i)|
  }

  /** A batch `get_features` accepts: it is not empty, and when it is
      labelled every query has a label for each of its words. */
  predicate Accepted(queries: seq<string>, rawSlots: Option<seq<seq<int>>>)
  {
    && |queries| > 0
    && forall i :: 0 <= i < |queries| ==> LabelsCover(Words(queries[i]), rawSlots, i)
  }

  /** The words of every query of a batch. */
  function WordLists(queries: seq<string>): (wss: seq<seq<string>>)
    ensures |wss| == |queries|
    ensures forall i :: 0 <= i < |queries| ==> wss[i] == Words(queries[i])
  {
    seq(|queries|, i requires 0 <= i < |queries| => Words(queries[i]))
  }

  /** The first loop of `get_features` (lines 78-101) over the whole batch,
      given the words of each query. */
  function ExpandAll(wordLists: seq<seq<string>>, tokenize: string -> seq<string>,
                     rawSlots: Option<seq<seq<int>>>, padLabel: int): (r: Result<seq<RawExample>>)
    ensures r.Ok? <==> forall i :: 0 <= i < |wordLists| ==> LabelsCover(wordLists[i], rawSlots, i)
    ensures r.Err? ==> r.error == IndexOutOfRange
    ensures r.Ok? ==> |r.value| == |wordLists|
  {
    var steps := seq(|wordLists|, i requires 0 <= i < |wordLists| =>
      Expand(wordLists[i], tokenize, rawSlots.Some?, LabelsOf(rawSlots, i), padLabel));
    assert forall i :: 0 <= i < |wordLists| ==> (steps[i].Ok? <==> LabelsCover(wordLists[i], rawSlots, i));
    Each(steps)
  }

  /** Raw example i of a batch is the expansion of query i's words with that query's labels. */
  lemma ExpandAllEntry(wordLists: seq<seq<string>>, tokenize: string -> seq<string>,
                       rawSlots: Option<seq<seq<int>>>, padLabel: int, i: nat)
    requires ExpandAll(wordLists, tokenize, rawSlots, padLabel).Ok?
    requires i < |wordLists|
    ensures Expand(wordLists[i], tokenize, rawSlots.Some?, LabelsOf(rawSlots, i), padLabel)
            == Ok(ExpandAll(wordLists, tokenize, rawSlots, padLabel).value[i])
  {
  }

  /** Raw subtoken counts, the `sent_lengths` of the source. */
  function Lengths(raws: seq<RawExample>): (ls: seq<int>)
    ensures |ls| == |raws|
    ensures forall i :: 0 <= i < |raws| ==> ls[i] == |raws[i].subtokens|
  {
    seq(|raws|, i requires 0 <= i < |raws| => |raws[i].subtokens|)
  }

  /** Line 103: the effective length L is the configured maximum lowered to
      the longest raw example. */
  function EffectiveLength(maxSeqLength: int, lengths: seq<int>): (L: int)
    requires |lengths| > 0
    ensures L <= maxSeqLength
    ensures exists i :: 0 <= i < |lengths| && L <= lengths[i]
    ensures L == maxSeqLength || forall i :: 0 <= i < |lengths| ==> lengths[i] <= L
    ensures (forall i :: 0 <= i < |lengths| ==> lengths[i] <= maxSeqLength) ==>
      && (forall i :: 0 <= i < |lengths| ==> lengths[i] <= L)
      && (exists i :: 0 <= i < |lengths| && lengths[i] == L)
  {
    Min(maxSeqLength, Max(lengths))
  }

  /** Lines 109-116 on one parallel list: when the example is too long, a fresh
      head followed by Python's `s[-L + 1:]`; otherwise s unchanged. */
  function Kept<T>(s: seq<T>, head: T, tooLong: bool, L: int): (r: seq<T>)
    ensures !tooLong ==> r == s
    ensures tooLong ==> |r| > 0 && r[0] == head
    ensures tooLong && L >= 2 ==> r[1..] == s[|s| - Min(L - 1, |s|)..]
    ensures tooLong && L == 1 ==> r[1..] == s
  {
    if tooLong then [head] + SliceFrom(s, 1 - L) else s
  }

  /** Vocabulary ids of subtokens, in order. */
  function Ids(subtokens: seq<string>, toId: string -> int): (ids: seq<int>)
    ensures |ids| == |subtokens|
    ensures forall i :: 0 <= i < |ids| ==> ids[i] == toId(subtokens[i])
  {
    seq(|subtokens|, i requires 0 <= i < |subtokens| => toId(subtokens[i]))
  }

  /** Everything the second loop produces for one example. `unpaddedMask` is
      the extra attention mask appended at line 121. */
  datatype Record = Record(
    inputIds: seq<int>,
    segmentIds: seq<int>,
    inputMask: seq<int>,
    slotMask: seq<bool>,
    slots: seq<int>,
    unpaddedMask: seq<int>)

  /** Lines 109-132 for one example. Whether the example is cut and how much
      padding is added are both decided by its subtoken count alone, and
      applied to every parallel list. `Repeat` of a non-positive count is empty,
      which is the `if len(subtokens) < max_seq_length` guard. */
  function BuildRecord(raw: RawExample, L: int, toId: string -> int, padLabel: int): Record
  {
    var n := |raw.subtokens|;
    var tooLong := n > L;
    var kept := Kept(raw.subtokens, CLS, tooLong, L);
    var extra := L - |kept|;
    Record(
      Ids(kept, toId) + Repeat(0, extra),
      Repeat(0, L),
      Kept(Repeat(1, n), 1, tooLong, L) + Repeat(0, extra),
      Kept(raw.firstMask, true, tooLong, L) + Repeat(false, extra),
      Kept(raw.slots, padLabel, tooLong, L) + Repeat(padLabel, extra),
      Repeat(1, |kept|))
  }

  /** The five lists `get_features` returns. */
  datatype Features = Features(
    inputIds: seq<seq<int>>,
    segmentIds: seq<seq<int>>,
    inputMasks: seq<seq<int>>,
    slotMasks: seq<seq<bool>>,
    slots: seq<seq<int>>)

  /** The second loop of `get_features` (lines 108-132): one record per raw example. */
  function Records(raws: seq<RawExample>, L: int, toId: string -> int, padLabel: int): (recs: seq<Record>)
    ensures |recs| == |raws|
  {
    seq(|raws|, i requires 0 <= i < |raws| => BuildRecord(raws[i], L, toId, padLabel))
  }

  /** The records of a batch, assembled into the returned lists: the attention
      mask list holds the N padded masks followed by the N unpadded ones, and
      the slot list is empty for an unlabelled batch. */
  function Collect(recs: seq<Record>, labelled: bool): (f: Features)
    ensures |f.inputIds| == |f.segmentIds| == |f.slotMasks| == |recs|
    ensures |f.inputMasks| == 2 * |recs|
    ensures |f.slots| == if labelled then |recs| else 0
  {
    Features(
      seq(|recs|, i requires 0 <= i < |recs| => recs[i].inputIds),
      seq(|recs|, i requires 0 <= i < |recs| => recs[i].segmentIds),
      seq(|recs|, i requires 0 <= i < |recs| => recs[i].inputMask)
        + seq(|recs|, i requires 0 <= i < |recs| => recs[i].unpaddedMask),
      seq(|recs|, i requires 0 <= i < |recs| => recs[i].slotMask),
      if labelled then seq(|recs|, i requires 0 <= i < |recs| => recs[i].slots) else [])
  }

  /** `get_features(queries, max_seq_length, tokenizer, pad_label, raw_slots)`.
      An empty batch fails in `max()`; a query with more words than labels
      fails with IndexError. */
  function GetFeatures(queries: seq<string>, maxSeqLength: int, tok: Tokenizer, padLabel: int,
                       rawSlots: Option<seq<seq<int>>>): (r: Result<Features>)
    ensures r.Ok? <==> Accepted(queries, rawSlots)
    ensures r.Err? ==> r.error == if |queries| == 0 then EmptyBatch else IndexOutOfRange
    ensures r.Ok? ==>
      && |r.value.inputIds| == |queries|
      && |r.value.segmentIds| == |queries|
      && |r.value.inputMasks| == 2 * |queries|
      && |r.value.slotMasks| == |queries|
      && |r.value.slots| == (if rawSlots.Some? then |queries| else 0)
  {
    match ExpandAll(WordLists(queries), tok.tokenize, rawSlots, padLabel)
    case Err(e) => Err(e)
    case Ok(raws) =>
      if |raws| == 0 then Err(EmptyBatch)
      else
        var L := EffectiveLength(maxSeqLength, Lengths(raws));
        Ok(Collect(Records(raws, L, tok.toId, padLabel), rawSlots.Some?))
  }

  /** The effective length of a batch that `GetFeatures` accepts. */
  function BatchLength(queries: seq<string>, maxSeqLength: int, tok: Tokenizer, padLabel: int,
                       rawSlots: Option<seq<seq<int>>>): int
    requires Accepted(queries, rawSlots)
  {
    EffectiveLength(maxSeqLength, Lengths(ExpandAll(WordLists(queries), tok.tokenize, rawSlots, padLabel).value))
  }

  /** The raw example of query i of a batch that `GetFeatures` accepts. */
  function RawOf(queries: seq<string>, maxSeqLength: int, tok: Tokenizer, padLabel: int,
                 rawSlots: Option<seq<seq<int>>>, i: nat): RawExample
    requires Accepted(queries, rawSlots)
    requires i < |queries|
  {
    ExpandAll(WordLists(queries), tok.tokenize, rawSlots, padLabel).value[i]
  }

  // ---------------------------------------------------------------------
  // One list cut at the tail.

  /** Tail-anchored truncation: with L >= 2, a list at least L - 1 long is cut
      to its head followed by exactly its last L - 1 elements, in order. */
  lemma TailCut<T>(s: seq<T>, head: T, L: int)
    requires L >= 2 && |s| >= L - 1
    ensures Kept(s, head, true, L) == [head] + s[|s| - (L - 1)..]
    ensures |Kept(s, head, true, L)| == L
  {
  }

  /** With L == 1 the slice `s[-L + 1:]` is `s[0:]`: nothing is cut, and the
      head is added in front of everything. */
  lemma LengthOneKeepsAll<T>(s: seq<T>, head: T)
    ensures Kept(s, head, true, 1) == [head] + s
  {
    assert SliceFrom(s, 0) == s;
  }

  // ---------------------------------------------------------------------
  // One example.

  /** With L >= 2, the ids, segment ids and attention mask have length exactly
      L; so do the first-subtoken mask and the slots when they are aligned
      with the subtokens. */
  lemma RecordShape(raw: RawExample, L: int, toId: string -> int, padLabel: int)
    requires L >= 2
    ensures var rec := BuildRecord(raw, L, toId, padLabel);
      && |rec.inputIds| == L
      && rec.segmentIds == Repeat(0, L)
      && |rec.inputMask| == L
      && (|raw.firstMask| == |raw.subtokens| ==> |rec.slotMask| == L)
      && (|raw.slots| == |raw.subtokens| ==> |rec.slots| == L)
  {
  }

  /** A list cut at the tail, with a non-positive padding count, is its head
      followed by its last L - 1 elements. */
  lemma CutWithoutPadding<T>(s: seq<T>, head: T, fill: T, L: int, extra: int)
    requires L >= 2 && |s| >= L - 1 && extra <= 0
    ensures Kept(s, head, true, L) + Repeat(fill, extra) == [head] + s[|s| - (L - 1)..]
  {
    TailCut(s, head, L);
    assert Repeat(fill, extra) == [];
  }

  /** An example longer than L >= 2 keeps [CLS] and exactly its last L - 1
      subtokens; the attention mask becomes all ones; the first-subtoken mask
      and the slots are cut the same way, behind a True and a pad label. */
  lemma RecordTruncation(raw: RawExample, L: int, toId: string -> int, padLabel: int)
    requires L >= 2 && |raw.subtokens| > L
    ensures var rec := BuildRecord(raw, L, toId, padLabel);
      var n := |raw.subtokens|;
      && rec.inputIds == Ids([CLS] + raw.subtokens[n - (L - 1)..], toId)
      && rec.inputMask == Repeat(1, L)
      && rec.unpaddedMask == Repeat(1, L)
      && (|raw.firstMask| == n ==> rec.slotMask == [true] + raw.firstMask[n - (L - 1)..])
      && (|raw.slots| == n ==> rec.slots == [padLabel] + raw.slots[n - (L - 1)..])
  {
    var n := |raw.subtokens|;
    var kept := Kept(raw.subtokens, CLS, true, L);
    TailCut(raw.subtokens, CLS, L);
    var extra := L - |kept|;
    assert extra == 0;
    var rec := BuildRecord(raw, L, toId, padLabel);
    assert rec.inputIds == Ids(kept, toId) + Repeat(0, extra);
    assert Repeat(0, extra) == [];
    CutWithoutPadding(Repeat(1, n), 1, 0, L, extra);
    assert [1] + Repeat(1, n)[n - (L - 1)..] == Repeat(1, L);
    if |raw.firstMask| == n {
      CutWithoutPadding(raw.firstMask, true, false, L, extra);
    }
    if |raw.slots| == n {
      CutWithoutPadding(raw.slots, padLabel, padLabel, L, extra);
    }
  }

  /** An example no longer than L is kept whole and right-padded to L: ids and
      attention mask with 0, first-subtoken mask with False, slots with the
      pad label. */
  lemma RecordPadding(raw: RawExample, L: int, toId: string -> int, padLabel: int)
    requires |raw.subtokens| <= L
    ensures var rec := BuildRecord(raw, L, toId, padLabel);
      var n := |raw.subtokens|;
      && rec.inputIds == Ids(raw.subtokens, toId) + Repeat(0, L - n)
      && rec.inputMask == Repeat(1, n) + Repeat(0, L - n)
      && rec.unpaddedMask == Repeat(1, n)
      && rec.slotMask == raw.firstMask + Repeat(false, L - n)
      && rec.slots == raw.slots + Repeat(padLabel, L - n)
      && rec.inputIds[..n] == Ids(raw.subtokens, toId)
  {
  }

  /** With L >= 2, the padded attention mask is min(n, L) ones followed by
      zeros, its sum is the number of real positions, and the unpadded mask is
      min(n, L) ones. */
  lemma RecordAttention(raw: RawExample, L: int, toId: string -> int, padLabel: int)
    requires L >= 2
    ensures var rec := BuildRecord(raw, L, toId, padLabel);
      var m := Min(|raw.subtokens|, L);
      && rec.inputMask == Repeat(1, m) + Repeat(0, L - m)
      && Sum(rec.inputMask) == m
      && rec.unpaddedMask == Repeat(1, m)
  {
    var rec := BuildRecord(raw, L, toId, padLabel);
    var m := Min(|raw.subtokens|, L);
    if |raw.subtokens| > L {
      RecordTruncation(raw, L, toId, padLabel);
      assert Repeat(1, L) + Repeat(0, 0) == Repeat(1, L);
    } else {
      RecordPadding(raw, L, toId, padLabel);
    }
    SumAppend(Repeat(1, m), Repeat(0, L - m));
    SumRepeat(1, m);
    SumRepeat(0, L - m);
  }

  /** With L == 1 nothing is cut and nothing is padded: every list except the
      segment ids gets its head in front of all n raw entries, so it is one
      longer than the raw example, while the segment ids keep length L. */
  lemma RecordLengthOne(raw: RawExample, toId: string -> int, padLabel: int)
    requires |raw.subtokens| >= 2
    ensures var rec := BuildRecord(raw, 1, toId, padLabel);
      var n := |raw.subtokens|;
      && rec.inputIds == Ids([CLS] + raw.subtokens, toId)
      && |rec.inputIds| == n + 1
      && rec.segmentIds == [0]
      && rec.inputMask == Repeat(1, n + 1)
      && rec.unpaddedMask == Repeat(1, n + 1)
      && rec.slotMask == [true] + raw.firstMask
      && rec.slots == [padLabel] + raw.slots
  {
    var n := |raw.subtokens|;
    var rec := BuildRecord(raw, 1, toId, padLabel);
    LengthOneKeepsAll(raw.subtokens, CLS);
    LengthOneKeepsAll(Repeat(1, n), 1);
    LengthOneKeepsAll(raw.firstMask, true);
    LengthOneKeepsAll(raw.slots, padLabel);
    assert rec.inputIds == Ids([CLS] + raw.subtokens, toId) + [];
    assert rec.segmentIds == [0];
    assert rec.inputMask == [1] + Repeat(1, n) + [];
    assert [1] + Repeat(1, n) == Repeat(1, n + 1);
    assert rec.slotMask == [true] + raw.firstMask + [];
    assert rec.slots == [padLabel] + raw.slots + [];
  }

  // ---------------------------------------------------------------------
  // The whole batch.

  /** Entry i of every returned list comes from the record of raw example i at
      the batch's effective length; entry N + i of the attention-mask list is
      that example's unpadded mask. */
  lemma GetFeaturesEntry(queries: seq<string>, maxSeqLength: int, tok: Tokenizer, padLabel: int,
                         rawSlots: Option<seq<seq<int>>>, i: nat)
    requires Accepted(queries, rawSlots)
    requires i < |queries|
    ensures var f := GetFeatures(queries, maxSeqLength, tok, padLabel, rawSlots).value;
      var rec := BuildRecord(RawOf(queries, maxSeqLength, tok, padLabel, rawSlots, i),
                             BatchLength(queries, maxSeqLength, tok, padLabel, rawSlots), tok.toId, padLabel);
      && f.inputIds[i] == rec.inputIds
      && f.segmentIds[i] == rec.segmentIds
      && f.inputMasks[i] == rec.inputMask
      && f.inputMasks[|queries| + i] == rec.unpaddedMask
      && f.slotMasks[i] == rec.slotMask
      && (rawSlots.Some? ==> f.slots[i] == rec.slots)
  {
    var raws := ExpandAll(WordLists(queries), tok.tokenize, rawSlots, padLabel).value;
    var L := BatchLength(queries, maxSeqLength, tok, padLabel, rawSlots);
    var recs := Records(raws, L, tok.toId, padLabel);
    assert GetFeatures(queries, maxSeqLength, tok, padLabel, rawSlots) == Ok(Collect(recs, rawSlots.Some?));
    CollectEntry(recs, rawSlots.Some?, i);
  }

  /** Entry i of each assembled list is the matching field of record i, and
      entry N + i of the attention-mask list is record i's unpadded mask. */
  lemma CollectEntry(recs: seq<Record>, labelled: bool, i: nat)
    requires i < |recs|
    ensures var f := Collect(recs, labelled);
      && f.inputIds[i] == recs[i].inputIds
      && f.segmentIds[i] == recs[i].segmentIds
      && f.inputMasks[i] == recs[i].inputMask
      && f.inputMasks[|recs| + i] == recs[i].unpaddedMask
      && f.slotMasks[i] == recs[i].slotMask
      && (labelled ==> f.slots[i] == recs[i].slots)
  {
  }

  /** Raw example i of an accepted batch is the expansion of query i's words. */
  lemma RawOfExpansion(queries: seq<string>, maxSeqLength: int, tok: Tokenizer, padLabel: int,
                       rawSlots: Option<seq<seq<int>>>, i: nat)
    requires Accepted(queries, rawSlots)
    requires i < |queries|
    ensures Expand(Words(queries[i]), tok.tokenize, rawSlots.Some?, LabelsOf(rawSlots, i), padLabel)
            == Ok(RawOf(queries, maxSeqLength, tok, padLabel, rawSlots, i))
  {
    var wss := WordLists(queries);
    ExpandAllEntry(wss, tok.tokenize, rawSlots, padLabel, i);
    assert wss[i] == Words(queries[i]);
  }

  /** Raw example i has at least [CLS] and [SEP]; its slots follow its
      subtokens when labelled, and so does its mask when no word is lost. */
  lemma RawOfShape(queries: seq<string>, maxSeqLength: int, tok: Tokenizer, padLabel: int,
                   rawSlots: Option<seq<seq<int>>>, i: nat)
    requires Accepted(queries, rawSlots)
    requires i < |queries|
    ensures var raw := RawOf(queries, maxSeqLength, tok, padLabel, rawSlots, i);
      && |raw.subtokens| >= 2
      && (rawSlots.Some? ==> |raw.slots| == |raw.subtokens|)
      && (AllNonEmpty(Words(queries[i]), tok.tokenize) ==> |raw.firstMask| == |raw.subtokens|)
  {
    RawOfExpansion(queries, maxSeqLength, tok, padLabel, rawSlots, i);
    ExpandShape(Words(queries[i]), tok.tokenize, rawSlots.Some?, LabelsOf(rawSlots, i), padLabel);
  }

  /** L never exceeds the configured maximum, is at least 2 when the maximum
      is, is either the maximum or bounds every raw example, and is the length
      of the longest raw example when every example fits. */
  lemma BatchLengthBounds(queries: seq<string>, maxSeqLength: int, tok: Tokenizer, padLabel: int,
                          rawSlots: Option<seq<seq<int>>>)
    requires Accepted(queries, rawSlots)
    ensures var L := BatchLength(queries, maxSeqLength, tok, padLabel, rawSlots);
      && L <= maxSeqLength
      && (maxSeqLength >= 2 ==> L >= 2)
      && (exists i :: 0 <= i < |queries| && L <= |RawOf(queries, maxSeqLength, tok, padLabel, rawSlots, i).subtokens|)
      && (L == maxSeqLength ||
          forall i :: 0 <= i < |queries| ==> |RawOf(queries, maxSeqLength, tok, padLabel, rawSlots, i).subtokens| <= L)
      && ((forall i :: 0 <= i < |queries| ==>
             |RawOf(queries, maxSeqLength, tok, padLabel, rawSlots, i).subtokens| <= maxSeqLength) ==>
          && (forall i :: 0 <= i < |queries| ==> |RawOf(queries, maxSeqLength, tok, padLabel, rawSlots, i).subtokens| <= L)
          && (exists i :: 0 <= i < |queries| && L == |RawOf(queries, maxSeqLength, tok, padLabel, rawSlots, i).subtokens|))
  {
    var raws := ExpandAll(WordLists(queries), tok.tokenize, rawSlots, padLabel).value;
    var ls := Lengths(raws);
    var L := EffectiveLength(maxSeqLength, ls);
    assert L == BatchLength(queries, maxSeqLength, tok, padLabel, rawSlots);
    assert forall i :: 0 <= i < |queries| ==> ls[i] == |RawOf(queries, maxSeqLength, tok, padLabel, rawSlots, i).subtokens|;
    RawOfShape(queries, maxSeqLength, tok, padLabel, rawSlots, 0);
    assert Max(ls) >= ls[0];
  }

  /** Output shapes: with a configured maximum of at least 2, entry i of the
      ids, segment-id, attention-mask and (labelled) slot lists has length
      exactly L; so does the first-subtoken mask when every word of query i
      yields a subtoken. */
  lemma GetFeaturesShape(queries: seq<string>, maxSeqLength: int, tok: Tokenizer, padLabel: int,
                         rawSlots: Option<seq<seq<int>>>, i: nat)
    requires Accepted(queries, rawSlots)
    requires maxSeqLength >= 2
    requires i < |queries|
    ensures var f := GetFeatures(queries, maxSeqLength, tok, padLabel, rawSlots).value;
      var L := BatchLength(queries, maxSeqLength, tok, padLabel, rawSlots);
      && |f.inputIds[i]| == L
      && f.segmentIds[i] == Repeat(0, L)
      && |f.inputMasks[i]| == L
      && (rawSlots.Some? ==> |f.slots[i]| == L)
      && (AllNonEmpty(Words(queries[i]), tok.tokenize) ==> |f.slotMasks[i]| == L)
  {
    var raw := RawOf(queries, maxSeqLength, tok, padLabel, rawSlots, i);
    var L := BatchLength(queries, maxSeqLength, tok, padLabel, rawSlots);
    BatchLengthBounds(queries, maxSeqLength, tok, padLabel, rawSlots);
    RawOfShape(queries, maxSeqLength, tok, padLabel, rawSlots, i);
    GetFeaturesEntry(queries, maxSeqLength, tok, padLabel, rawSlots, i);
    RecordShape(raw, L, tok.toId, padLabel);
  }

  /** Right padding at batch level: an example no longer than L keeps every
      raw position unchanged and is filled up to L with 0 ids, 0 attention,
      False flags and pad labels. */
  lemma GetFeaturesPadding(queries: seq<string>, maxSeqLength: int, tok: Tokenizer, padLabel: int,
                           rawSlots: Option<seq<seq<int>>>, i: nat)
    requires Accepted(queries, rawSlots)
    requires i < |queries|
    requires |RawOf(queries, maxSeqLength, tok, padLabel, rawSlots, i).subtokens|
             <= BatchLength(queries, maxSeqLength, tok, padLabel, rawSlots)
    ensures var f := GetFeatures(queries, maxSeqLength, tok, padLabel, rawSlots).value;
      var L := BatchLength(queries, maxSeqLength, tok, padLabel, rawSlots);
      var raw := RawOf(queries, maxSeqLength, tok, padLabel, rawSlots, i);
      var n := |raw.subtokens|;
      && f.inputIds[i] == Ids(raw.subtokens, tok.toId) + Repeat(0, L - n)
      && f.inputMasks[i] == Repeat(1, n) + Repeat(0, L - n)
      && f.slotMasks[i] == raw.firstMask + Repeat(false, L - n)
      && (rawSlots.Some? ==> f.slots[i] == raw.slots + Repeat(padLabel, L - n))
  {
    GetFeaturesEntry(queries, maxSeqLength, tok, padLabel, rawSlots, i);
    RecordPadding(RawOf(queries, maxSeqLength, tok, padLabel, rawSlots, i),
                  BatchLength(queries, maxSeqLength, tok, padLabel, rawSlots), tok.toId, padLabel);
  }

  /** The attention-mask list: entry i is min(n_i, L) ones then zeros, and
      entry N + i is min(n_i, L) ones with no padding. */
  lemma GetFeaturesAttention(queries: seq<string>, maxSeqLength: int, tok: Tokenizer, padLabel: int,
                             rawSlots: Option<seq<seq<int>>>, i: nat)
    requires Accepted(queries, rawSlots)
    requires i < |queries|
    requires maxSeqLength >= 2
    ensures var f := GetFeatures(queries, maxSeqLength, tok, padLabel, rawSlots).value;
      var L := BatchLength(queries, maxSeqLength, tok, padLabel, rawSlots);
      var m := Min(|RawOf(queries, maxSeqLength, tok, padLabel, rawSlots, i).subtokens|, L);
      && f.inputMasks[i] == Repeat(1, m) + Repeat(0, L - m)
      && Sum(f.inputMasks[i]) == m
      && f.inputMasks[|queries| + i] == Repeat(1, m)
  {
    BatchLengthBounds(queries, maxSeqLength, tok, padLabel, rawSlots);
    GetFeaturesEntry(queries, maxSeqLength, tok, padLabel, rawSlots, i);
    RecordAttention(RawOf(queries, maxSeqLength, tok, padLabel, rawSlots, i),
                    BatchLength(queries, maxSeqLength, tok, padLabel, rawSlots), tok.toId, padLabel);
  }
}
