/** The first loop of `get_features` for one query: each word is tokenized on
    its own, the subtokens are bracketed with [CLS] and [SEP], and two parallel
    sequences are built alongside them: the first-subtoken mask and, for
    labelled data, the subtoken-aligned slot labels. */
module Subtokens {
  import opened SeqOps
  import opened Results

  const CLS: string := "[CLS]"
  const SEP: string := "[SEP]"

  /** The two tokenizer capabilities the feature builder calls: splitting a
      word into subtokens and mapping a subtoken to its vocabulary id. Both are
      foreign code, so here they are arbitrary total functions. */
  datatype Tokenizer = Tokenizer(tokenize: string -> seq<string>, toId: string -> int)

  /** Every word yields at least one subtoken. */
  predicate AllNonEmpty(words: seq<string>, tokenize: string -> seq<string>)
  {
    forall j :: 0 <= j < |words| ==> |tokenize(words[j])| > 0
  }

  /** The subtokens of all words, each word tokenized on its own, in order. */
  function Pieces(words: seq<string>, tokenize: string -> seq<string>): seq<string>
    decreases |words|
  {
    if words == [] then []
    else Pieces(words[..|words| - 1], tokenize) + tokenize(words[|words| - 1])
  }

  /** The flags one word contributes to the first-subtoken mask when it yields
      n subtokens: one True, then n - 1 Falses. A word with no subtokens still
      contributes its True. */
  function WordMask(n: int): seq<bool>
  {
    [true] + Repeat(false, n - 1)
  }

  /** The first-subtoken flags of all words, in order. */
  function PiecesMask(words: seq<string>, tokenize: string -> seq<string>): seq<bool>
    decreases |words|
  {
    if words == [] then []
    else PiecesMask(words[..|words| - 1], tokenize) + WordMask(|tokenize(words[|words| - 1])|)
  }

  /** The slot labels of all words, each word's label repeated once per subtoken. */
  function PiecesSlots(words: seq<string>, labels: seq<int>, tokenize: string -> seq<string>): seq<int>
    requires |words| <= |labels|
    decreases |words|
  {
    if words == [] then []
    else
      PiecesSlots(words[..|words| - 1], labels, tokenize)
      + Repeat(labels[|words| - 1], |tokenize(words[|words| - 1])|)
  }

  /** Index of word j's first subtoken among the subtokens of all words. */
  function Offset(words: seq<string>, tokenize: string -> seq<string>, j: nat): nat
    requires j <= |words|
  {
    |Pieces(words[..j], tokenize)|
  }

  /** One query before truncation and padding. `slots` is empty for unlabelled data. */
  datatype RawExample = RawExample(subtokens: seq<string>, firstMask: seq<bool>, slots: seq<int>)

  /** The first loop of `get_features` on one query's words. With labels, the
      j-th label is read for every word j, so a label list shorter than the
      word list raises IndexError; labels past the last word are never read. */
  function Expand(words: seq<string>, tokenize: string -> seq<string>, labelled: bool,
                  labels: seq<int>, padLabel: int): (r: Result<RawExample>)
    ensures r.Err? <==> labelled && |labels| < |words|
    ensures r.Err? ==> r.error == IndexOutOfRange
  {
    if labelled && |labels| < |words| then Err(IndexOutOfRange)
    else
      Ok(RawExample(
        [CLS] + Pieces(words, tokenize) + [SEP],
        [true] + PiecesMask(words, tokenize) + [true],
        if labelled then [padLabel] + PiecesSlots(words, labels, tokenize) + [padLabel] else []))
  }

  // ---------------------------------------------------------------------
  // Prefix structure: the output for the first i words is a prefix of the
  // output for all words.

  lemma {:induction false} PiecesPrefix(words: seq<string>, tokenize: string -> seq<string>, i: nat)
    requires i <= |words|
    ensures |Pieces(words[..i], tokenize)| <= |Pieces(words, tokenize)|
    ensures Pieces(words, tokenize)[..|Pieces(words[..i], tokenize)|] == Pieces(words[..i], tokenize)
    decreases |words|
  {
    if i == |words| {
      assert words[..i] == words;
    } else {
      var init := words[..|words| - 1];
      assert init[..i] == words[..i];
      PiecesPrefix(init, tokenize, i);
    }
  }

  lemma {:induction false} PiecesMaskPrefix(words: seq<string>, tokenize: string -> seq<string>, i: nat)
    requires i <= |words|
    ensures |PiecesMask(words[..i], tokenize)| <= |PiecesMask(words, tokenize)|
    ensures PiecesMask(words, tokenize)[..|PiecesMask(words[..i], tokenize)|] == PiecesMask(words[..i], tokenize)
    decreases |words|
  {
    if i == |words| {
      assert words[..i] == words;
    } else {
      var init := words[..|words| - 1];
      assert init[..i] == words[..i];
      PiecesMaskPrefix(init, tokenize, i);
    }
  }

  lemma {:induction false} PiecesSlotsPrefix(words: seq<string>, labels: seq<int>,
                                             tokenize: string -> seq<string>, i: nat)
    requires i <= |words| <= |labels|
    ensures |PiecesSlots(words[..i], labels, tokenize)| <= |PiecesSlots(words, labels, tokenize)|
    ensures PiecesSlots(words, labels, tokenize)[..|PiecesSlots(words[..i], labels, tokenize)|]
            == PiecesSlots(words[..i], labels, tokenize)
    decreases |words|
  {
    if i == |words| {
      assert words[..i] == words;
    } else {
      var init := words[..|words| - 1];
      assert init[..i] == words[..i];
      PiecesSlotsPrefix(init, labels, tokenize, i);
    }
  }

  // ---------------------------------------------------------------------
  // Lengths and alignment.

  /** The slot sequence always has exactly one label per subtoken. */
  lemma {:induction false} SlotsAligned(words: seq<string>, labels: seq<int>, tokenize: string -> seq<string>)
    requires |words| <= |labels|
    ensures |PiecesSlots(words, labels, tokenize)| == |Pieces(words, tokenize)|
    decreases |words|
  {
    if words != [] {
      SlotsAligned(words[..|words| - 1], labels, tokenize);
    }
  }

  /** The mask is never shorter than the subtokens, and it has exactly one flag
      per subtoken if and only if every word yields at least one subtoken: a
      word with no subtokens still pushes a True. */
  lemma {:induction false} MaskAlignedIff(words: seq<string>, tokenize: string -> seq<string>)
    ensures |PiecesMask(words, tokenize)| >= |Pieces(words, tokenize)|
    ensures |PiecesMask(words, tokenize)| == |Pieces(words, tokenize)| <==> AllNonEmpty(words, tokenize)
    decreases |words|
  {
    if words != [] {
      var init := words[..|words| - 1];
      MaskAlignedIff(init, tokenize);
      var last := words[|words| - 1];
      assert |WordMask(|tokenize(last)|)| == |tokenize(last)| + (if |tokenize(last)| == 0 then 1 else 0);
      if AllNonEmpty(words, tokenize) {
        assert AllNonEmpty(init, tokenize) by {
          forall j | 0 <= j < |init| ensures |tokenize(init[j])| > 0 {
            assert init[j] == words[j];
          }
        }
      }
      if AllNonEmpty(init, tokenize) && |tokenize(last)| > 0 {
        forall j | 0 <= j < |words| ensures |tokenize(words[j])| > 0 {
          if j < |init| {
            assert init[j] == words[j];
          }
        }
      }
    }
  }

  lemma MaskAligned(words: seq<string>, tokenize: string -> seq<string>)
    requires AllNonEmpty(words, tokenize)
    ensures |PiecesMask(words, tokenize)| == |Pieces(words, tokenize)|
  {
    MaskAlignedIff(words, tokenize);
  }

  /** The mask holds exactly one True per word, whatever the tokenizer returns. */
  lemma {:induction false} MaskTrueCount(words: seq<string>, tokenize: string -> seq<string>)
    ensures Count(PiecesMask(words, tokenize), true) == |words|
    decreases |words|
  {
    if words != [] {
      var init := words[..|words| - 1];
      var n := |tokenize(words[|words| - 1])|;
      MaskTrueCount(init, tokenize);
      CountAppend(PiecesMask(init, tokenize), WordMask(n), true);
      CountAppend([true], Repeat(false, n - 1), true);
      CountRepeat(false, n - 1, true);
      assert Count([true], true) == 1 by {
        assert [true][..0] == [];
      }
    }
  }

  // ---------------------------------------------------------------------
  // Position-wise layout: word j's subtokens sit at Offset(j), Offset(j) + 1, ...

  /** Offsets are cumulative subtoken counts. */
  lemma OffsetStep(words: seq<string>, tokenize: string -> seq<string>, j: nat)
    requires j < |words|
    ensures Offset(words, tokenize, j + 1) == Offset(words, tokenize, j) + |tokenize(words[j])|
    ensures Pieces(words[..j + 1], tokenize) == Pieces(words[..j], tokenize) + tokenize(words[j])
  {
    var pre := words[..j + 1];
    assert pre[..j] == words[..j];
  }

  lemma PrefixAllNonEmpty(words: seq<string>, tokenize: string -> seq<string>, i: nat)
    requires i <= |words|
    requires AllNonEmpty(words, tokenize)
    ensures AllNonEmpty(words[..i], tokenize)
  {
    forall t | 0 <= t < i ensures |tokenize(words[..i][t])| > 0 {
      assert words[..i][t] == words[t];
    }
  }

  /** The k-th subtoken of word j sits at Offset(j) + k. */
  lemma WordLayoutPieces(words: seq<string>, tokenize: string -> seq<string>, j: nat, k: nat)
    requires j < |words|
    requires k < |tokenize(words[j])|
    ensures Offset(words, tokenize, j) + k < |Pieces(words, tokenize)|
    ensures Pieces(words, tokenize)[Offset(words, tokenize, j) + k] == tokenize(words[j])[k]
  {
    var p := Offset(words, tokenize, j) + k;
    OffsetStep(words, tokenize, j);
    PiecesPrefix(words, tokenize, j + 1);
    assert Pieces(words[..j + 1], tokenize)[p] == tokenize(words[j])[k];
  }

  /** Every subtoken of word j carries word j's label. */
  lemma WordLayoutSlots(words: seq<string>, labels: seq<int>, tokenize: string -> seq<string>, j: nat, k: nat)
    requires j < |words| <= |labels|
    requires k < |tokenize(words[j])|
    ensures Offset(words, tokenize, j) + k < |PiecesSlots(words, labels, tokenize)|
    ensures PiecesSlots(words, labels, tokenize)[Offset(words, tokenize, j) + k] == labels[j]
  {
    var p := Offset(words, tokenize, j) + k;
    var pre := words[..j + 1];
    assert pre[..j] == words[..j];
    SlotsAligned(words[..j], labels, tokenize);
    var r := Repeat(labels[j], |tokenize(words[j])|);
    assert PiecesSlots(pre, labels, tokenize) == PiecesSlots(words[..j], labels, tokenize) + r;
    PiecesSlotsPrefix(words, labels, tokenize, j + 1);
    assert PiecesSlots(pre, labels, tokenize)[p] == r[k];
  }

  /** With non-empty tokenizer output, the k-th subtoken of word j is flagged
      in the mask exactly when k == 0. */
  lemma WordLayoutMask(words: seq<string>, tokenize: string -> seq<string>, j: nat, k: nat)
    requires j < |words|
    requires k < |tokenize(words[j])|
    requires AllNonEmpty(words, tokenize)
    ensures Offset(words, tokenize, j) + k < |PiecesMask(words, tokenize)|
    ensures PiecesMask(words, tokenize)[Offset(words, tokenize, j) + k] == (k == 0)
  {
    var p := Offset(words, tokenize, j) + k;
    var pre := words[..j + 1];
    assert pre[..j] == words[..j];
    PrefixAllNonEmpty(words, tokenize, j);
    MaskAligned(words[..j], tokenize);
    var m := WordMask(|tokenize(words[j])|);
    assert PiecesMask(pre, tokenize) == PiecesMask(words[..j], tokenize) + m;
    PiecesMaskPrefix(words, tokenize, j + 1);
    assert PiecesMask(pre, tokenize)[p] == m[k];
  }

  /** Conversely, with non-empty tokenizer output a mask position is True only
      at some word's first subtoken. */
  lemma {:induction false} MaskTrueOnlyAtWordStarts(words: seq<string>, tokenize: string -> seq<string>, p: nat)
    requires AllNonEmpty(words, tokenize)
    requires p < |PiecesMask(words, tokenize)|
    requires PiecesMask(words, tokenize)[p]
    ensures exists j :: 0 <= j < |words| && p == Offset(words, tokenize, j)
    decreases |words|
  {
    var init := words[..|words| - 1];
    var m := |PiecesMask(init, tokenize)|;
    assert AllNonEmpty(init, tokenize) by {
      forall i | 0 <= i < |init| ensures |tokenize(init[i])| > 0 {
        assert init[i] == words[i];
      }
    }
    if p < m {
      assert PiecesMask(init, tokenize)[p];
      MaskTrueOnlyAtWordStarts(init, tokenize, p);
      var j :| 0 <= j < |init| && p == Offset(init, tokenize, j);
      assert init[..j] == words[..j];
      assert p == Offset(words, tokenize, j);
    } else {
      var n := |tokenize(words[|words| - 1])|;
      assert WordMask(n)[p - m];
      assert p == m;
      MaskAligned(init, tokenize);
      assert words[..|words| - 1] == init;
      assert p == Offset(words, tokenize, |words| - 1);
    }
  }

  /** Labels past the last word are ignored. */
  lemma {:induction false} ExtraLabelsIgnored(words: seq<string>, labels: seq<int>, tokenize: string -> seq<string>)
    requires |words| <= |labels|
    ensures PiecesSlots(words, labels, tokenize) == PiecesSlots(words, labels[..|words|], tokenize)
    decreases |words|
  {
    if words != [] {
      var init := words[..|words| - 1];
      ExtraLabelsIgnored(init, labels, tokenize);
      ExtraLabelsIgnored(init, labels[..|words|], tokenize);
      assert labels[..|words|][..|init|] == labels[..|init|];
    }
  }

  // ---------------------------------------------------------------------
  // The raw example of one query.

  /** Shape of a raw example: [CLS], the subtokens of every word, [SEP]; a mask
      with |words| + 2 Trues, True at both brackets, aligned with the subtokens
      exactly when every word yields a subtoken; with labels, one label per
      subtoken and the pad label on both brackets. */
  lemma ExpandShape(words: seq<string>, tokenize: string -> seq<string>, labelled: bool,
                    labels: seq<int>, padLabel: int)
    requires Expand(words, tokenize, labelled, labels, padLabel).Ok?
    ensures var raw := Expand(words, tokenize, labelled, labels, padLabel).value;
      && |raw.subtokens| == |Pieces(words, tokenize)| + 2 >= 2
      && raw.subtokens[0] == CLS && raw.subtokens[|raw.subtokens| - 1] == SEP
      && raw.subtokens[1..|raw.subtokens| - 1] == Pieces(words, tokenize)
      && raw.firstMask[0] && raw.firstMask[|raw.firstMask| - 1]
      && Count(raw.firstMask, true) == |words| + 2
      && (|raw.firstMask| == |raw.subtokens| <==> AllNonEmpty(words, tokenize))
      && (labelled ==> |raw.slots| == |raw.subtokens|
                       && raw.slots[0] == padLabel && raw.slots[|raw.slots| - 1] == padLabel)
      && (!labelled ==> raw.slots == [])
  {
    var raw := Expand(words, tokenize, labelled, labels, padLabel).value;
    MaskAlignedIff(words, tokenize);
    MaskTrueCount(words, tokenize);
    CountAppend([true] + PiecesMask(words, tokenize), [true], true);
    CountAppend([true], PiecesMask(words, tokenize), true);
    assert Count([true], true) == 1 by {
      assert [true][..0] == [];
    }
    if labelled {
      SlotsAligned(words, labels, tokenize);
    }
  }

  /** Position-wise content of a raw example: the k-th subtoken of word j sits
      at 1 + Offset(j) + k, is flagged in the mask exactly when k == 0, and
      carries word j's label. The mask flag is stated only when every word
      yields a subtoken: otherwise the mask has more entries than the
      subtokens and its positions drift from theirs. */
  lemma ExpandLayout(words: seq<string>, tokenize: string -> seq<string>, labelled: bool,
                     labels: seq<int>, padLabel: int, j: nat, k: nat)
    requires Expand(words, tokenize, labelled, labels, padLabel).Ok?
    requires j < |words| && k < |tokenize(words[j])|
    ensures var raw := Expand(words, tokenize, labelled, labels, padLabel).value;
      var p := 1 + Offset(words, tokenize, j) + k;
      && (labelled ==> |raw.slots| == |raw.subtokens|)
      && p < |raw.subtokens| - 1
      && raw.subtokens[p] == tokenize(words[j])[k]
      && (labelled ==> raw.slots[p] == labels[j])
      && (AllNonEmpty(words, tokenize) ==>
            && |raw.firstMask| == |raw.subtokens|
            && raw.firstMask[p] == (k == 0))
  {
    var raw := Expand(words, tokenize, labelled, labels, padLabel).value;
    var o := Offset(words, tokenize, j) + k;
    assert o < |Pieces(words, tokenize)| && raw.subtokens[1 + o] == tokenize(words[j])[k] by {
      WordLayoutPieces(words, tokenize, j, k);
    }
    if AllNonEmpty(words, tokenize) {
      assert |raw.firstMask| == |raw.subtokens| && raw.firstMask[1 + o] == (k == 0) by {
        MaskAligned(words, tokenize);
        WordLayoutMask(words, tokenize, j, k);
      }
    }
    if labelled {
      assert |raw.slots| == |raw.subtokens| && raw.slots[1 + o] == labels[j] by {
        SlotsAligned(words, labels, tokenize);
        WordLayoutSlots(words, labels, tokenize, j, k);
      }
    }
  }

  /** Conversely, every flagged mask position strictly between the brackets is
      the first subtoken of some word. */
  lemma ExpandMaskOnlyAtWordStarts(words: seq<string>, tokenize: string -> seq<string>, labelled: bool,
                                   labels: seq<int>, padLabel: int, p: nat)
    requires Expand(words, tokenize, labelled, labels, padLabel).Ok?
    requires AllNonEmpty(words, tokenize)
    requires 0 < p < |Expand(words, tokenize, labelled, labels, padLabel).value.firstMask| - 1
    requires Expand(words, tokenize, labelled, labels, padLabel).value.firstMask[p]
    ensures exists j :: 0 <= j < |words| && p == 1 + Offset(words, tokenize, j)
  {
    var raw := Expand(words, tokenize, labelled, labels, padLabel).value;
    assert PiecesMask(words, tokenize)[p - 1] == raw.firstMask[p];
    MaskTrueOnlyAtWordStarts(words, tokenize, p - 1);
    var j :| 0 <= j < |words| && p - 1 == Offset(words, tokenize, j);
    assert p == 1 + Offset(words, tokenize, j);
  }

  /** A word that yields no subtokens shifts the mask against the subtokens:
      the mask ends up longer. */
  lemma EmptyTokenBreaksAlignment(words: seq<string>, tokenize: string -> seq<string>, j: nat)
    requires j < |words| && tokenize(words[j]) == []
    ensures var raw := Expand(words, tokenize, false, [], 0).value;
      |raw.firstMask| > |raw.subtokens|
  {
    MaskAlignedIff(words, tokenize);
  }
}
