# Joint intent and slot feature building, in Dafny

This project models the data side of NeMo's joint intent classification and
slot filling: `get_features` in
`collections/nemo_nlp/nemo_nlp/data/datasets/joint_intent_slot.py` and the pure
parts of the two dataset classes defined in the same file. It also proves
properties of that model.

`get_features` turns a batch of queries into five parallel lists:
- input ids;
- segment ids;
- attention masks;
- first-subtoken ("slot") masks;
- subtoken-aligned slot labels.

It works in two passes.
- **First pass, one query at a time.** The query's words (`query.strip().split()`) are tokenized one word at a time. The subtokens are bracketed by `[CLS]` and `[SEP]`. Each word contributes one True followed by `len(word_tokens) - 1` Falses to the mask, and its label once per subtoken.
- **Effective length.** L is `min(max_seq_length, longest raw example)`. The two markers count inside L.
- **Second pass, one example at a time.** An example longer than L keeps `[CLS]` followed by its last `L - 1` subtokens (Python's `s[-L + 1:]`). A shorter one is right-padded to L with:
  - id 0;
  - attention 0;
  - mask False;
  - the pad label.

Modules, one per file:

- `Results` (`results.dfy`) holds two things:
  - the `Result`/`Option` types and the exceptions the code raises;
  - `Each`, a loop that stops at the first failing step.
- `SeqOps` (`seq_ops.dfy`): the Python list operations used, with Python's semantics.
  - `[x] * n` is empty for `n <= 0`.
  - `s[k:]` clamps its start index the way CPython does.
- `Text` (`text.dfy`): `str.split()`, `str.strip()` and `' '.join`, over Python's whitespace set.
- `Subtokens` (`subtokens.dfy`): the first pass for one query.
- `Features` (`features.dfy`): the effective length, the second pass, and `get_features` itself.
- `Datasets` (`datasets.dfy`):
  - `BertJointIntentSlotDataset.__init__`/`__len__`: the zero-sample check, header drop, line-count check, pairing, shuffle, sampling and parsing;
  - `BertJointIntentSlotInferDataset`.

Behaviour of the code that the model keeps, even where the surrounding documentation says otherwise:

- **The attention-mask list has 2N entries.** Line 121 appends one unpadded mask per example after the N padded ones.
- **L = 1 does not truncate.** `s[-1 + 1:]` is `s[0:]`, so an example of n raw subtokens becomes `[CLS]` followed by all n, one more than the raw length (`Features.RecordLengthOne`).
- **A word with no subtokens breaks alignment.** It still pushes a True into the mask, so the mask gets longer than the subtokens. Truncation and padding are decided by the subtoken count alone.
- **An empty batch raises.** `max()` of an empty list raises, so an empty batch is an error (`EmptyBatch`), not an empty result.
- **Extra labels are silently ignored.** A query with more labels than words is accepted. Fewer labels than words raises IndexError.
- **`max_seq_length` includes the markers.** The constructors' docstrings say "minus 2 for [CLS] and [SEP]", but the code counts both markers inside the effective length.

The tokenizer is a pair of arbitrary functions, `tokenize` and `toId`. Python's `int()` is a parameter `parseInt` that returns `None` where `int()` raises. The random choices of `random.shuffle` are a parameter `draws`: the index drawn at each step of its Fisher-Yates loop.

## Model

| member | source | states |
|---|---|---|
| `Results.Each` | collections/nemo_nlp/nemo_nlp/data/datasets/joint_intent_slot.py:191-196 | a loop over steps succeeds iff every step succeeds, yields each step's value in order, and otherwise raises the error of the first failing step |
| `SeqOps.Repeat` | collections/nemo_nlp/nemo_nlp/data/datasets/joint_intent_slot.py:89 | `[x] * n` has max(n, 0) elements, all equal to x |
| `SeqOps.SliceFrom` | collections/nemo_nlp/nemo_nlp/data/datasets/joint_intent_slot.py:110 | `s[k:]` is the suffix of s whose length CPython's index clamping gives, for negative, zero and positive k |
| `SeqOps.Max` | collections/nemo_nlp/nemo_nlp/data/datasets/joint_intent_slot.py:103 | `max()` of a non-empty list is one of its elements and bounds all of them |
| `Text.Split` | collections/nemo_nlp/nemo_nlp/data/datasets/joint_intent_slot.py:79 | `str.split()`; no contract of its own: `SplitSkipsLeadingSpace` and `SplitWordThen` fix it on every string (leading whitespace is skipped, then a maximal word is split off before whitespace or the end), and `SplitGivesWords`, `SplitJoin` and `SplitIgnoresStrip` state its tokens, its inverse and its indifference to `strip()` |
| `Text.Strip` | collections/nemo_nlp/nemo_nlp/data/datasets/joint_intent_slot.py:79 | `str.strip()`; no contract of its own: it is `TrimEnd(TrimStart(s))`, and `TrimStartDropsSpaces` and `TrimEndDropsSpaces` state that each half removes exactly a leading, resp. trailing, run of whitespace and keeps the rest as a contiguous piece of s; `StripTrimsBothEnds` and `SplitIgnoresStrip` add that no whitespace is left at either end and that splitting ignores it |
| `Text.StripTrimsBothEnds` | collections/nemo_nlp/nemo_nlp/data/datasets/joint_intent_slot.py:79 | `strip()` never lengthens, and leaves no whitespace at either end |
| `Text.Join` | collections/nemo_nlp/nemo_nlp/data/datasets/joint_intent_slot.py:196 | `' '.join`; no contract of its own: `SplitJoin` states that splitting it gives the tokens back |
| `Text.TrimStartDropsSpaces` | collections/nemo_nlp/nemo_nlp/data/datasets/joint_intent_slot.py:79 | `lstrip()` removes exactly a leading run of whitespace: the result is a suffix of s and everything before it is whitespace |
| `Text.TrimEndDropsSpaces` | collections/nemo_nlp/nemo_nlp/data/datasets/joint_intent_slot.py:79 | `rstrip()` removes exactly a trailing run of whitespace: the result is a prefix of s and everything after it is whitespace |
| `Text.SplitGivesWords` | collections/nemo_nlp/nemo_nlp/data/datasets/joint_intent_slot.py:79 | every token of `split()` is non-empty and free of whitespace |
| `Text.SplitIgnoresStrip` | collections/nemo_nlp/nemo_nlp/data/datasets/joint_intent_slot.py:79 | `s.strip().split()` equals `s.split()` |
| `Text.SplitJoin` | collections/nemo_nlp/nemo_nlp/data/datasets/joint_intent_slot.py:194-196 | splitting the single-space join of whitespace-free tokens gives the tokens back |
| `Subtokens.Expand` | collections/nemo_nlp/nemo_nlp/data/datasets/joint_intent_slot.py:78-101 | one query's first pass raises IndexError exactly when it is labelled and has fewer labels than words |
| `Subtokens.SlotsAligned` | collections/nemo_nlp/nemo_nlp/data/datasets/joint_intent_slot.py:86-91 | the broadcast labels have one entry per subtoken |
| `Subtokens.MaskAlignedIff` | collections/nemo_nlp/nemo_nlp/data/datasets/joint_intent_slot.py:86-89 | the mask is never shorter than the subtokens, and equally long iff every word yields a subtoken |
| `Subtokens.MaskTrueCount` | collections/nemo_nlp/nemo_nlp/data/datasets/joint_intent_slot.py:88-89 | the mask has exactly one True per word, whatever the tokenizer returns |
| `Subtokens.MaskTrueOnlyAtWordStarts` | collections/nemo_nlp/nemo_nlp/data/datasets/joint_intent_slot.py:85-89 | with non-empty tokenizer output, a True in the mask sits at some word's first subtoken |
| `Subtokens.ExtraLabelsIgnored` | collections/nemo_nlp/nemo_nlp/data/datasets/joint_intent_slot.py:91 | labels beyond the last word never reach the output |
| `Subtokens.ExpandShape` | collections/nemo_nlp/nemo_nlp/data/datasets/joint_intent_slot.py:80-101 | a raw example is [CLS], every word's subtokens, [SEP]; its mask has two more Trues than there are words with True at both brackets and matches the subtokens' length iff every word yields a subtoken; labelled slots have one label per subtoken with the pad label at both brackets; unlabelled slots are empty |
| `Subtokens.ExpandLayout` | collections/nemo_nlp/nemo_nlp/data/datasets/joint_intent_slot.py:85-91 | the k-th subtoken of word j sits at 1 + Offset(j) + k and, when labelled, its slot is word j's label; when every word yields a subtoken, its mask flag is True exactly when k == 0 (otherwise the mask is longer than the subtokens and its positions drift) |
| `Subtokens.ExpandMaskOnlyAtWordStarts` | collections/nemo_nlp/nemo_nlp/data/datasets/joint_intent_slot.py:88-94 | with non-empty tokenizer output, every True strictly between the brackets marks the first subtoken of some word |
| `Subtokens.EmptyTokenBreaksAlignment` | collections/nemo_nlp/nemo_nlp/data/datasets/joint_intent_slot.py:86-89 | a word with no subtokens makes the mask strictly longer than the subtokens |
| `Features.Words` | collections/nemo_nlp/nemo_nlp/data/datasets/joint_intent_slot.py:79 | `query.strip().split()`; no contract of its own: it is `Split(Strip(query))`, described by the `Text` rows above |
| `Features.ExpandAll` | collections/nemo_nlp/nemo_nlp/data/datasets/joint_intent_slot.py:78-101 | the first pass over a batch succeeds iff every labelled query has a label per word, else raises IndexError, and yields one raw example per query |
| `Features.Lengths` | collections/nemo_nlp/nemo_nlp/data/datasets/joint_intent_slot.py:95 | `sent_lengths`: one entry per raw example, entry i being the subtoken count of raw example i (markers included) |
| `Features.EffectiveLength` | collections/nemo_nlp/nemo_nlp/data/datasets/joint_intent_slot.py:103 | L never exceeds the maximum and is at most some example's length; if every example fits, L is the longest example's length |
| `Features.Kept` | collections/nemo_nlp/nemo_nlp/data/datasets/joint_intent_slot.py:109-116 | a list that is not too long is kept as is; a too-long one starts with the new head, followed by its last L - 1 entries for L >= 2 and by all of them for L == 1 |
| `Features.Ids` | collections/nemo_nlp/nemo_nlp/data/datasets/joint_intent_slot.py:119-120 | the ids list has one entry per subtoken, entry i being `toId` of subtoken i, in order |
| `Features.BuildRecord` | collections/nemo_nlp/nemo_nlp/data/datasets/joint_intent_slot.py:108-132 | one example's second pass; no contract of its own: `RecordShape`, `RecordTruncation`, `RecordPadding`, `RecordAttention` and `RecordLengthOne` state its behaviour |
| `Features.Records` | collections/nemo_nlp/nemo_nlp/data/datasets/joint_intent_slot.py:108-132 | the second loop yields one record per raw example; its contract gives only that count, and `CollectEntry` and `GetFeaturesEntry` state that row i is record i |
| `Features.Collect` | collections/nemo_nlp/nemo_nlp/data/datasets/joint_intent_slot.py:119-140 | the returned lists have one row per example, except 2N attention rows (padded masks then unpadded ones) and no slot rows when unlabelled; `CollectEntry` states the row contents |
| `Features.TailCut` | collections/nemo_nlp/nemo_nlp/data/datasets/joint_intent_slot.py:110-116 | for L >= 2, a cut list is its new head followed by exactly its last L - 1 elements, L in all |
| `Features.LengthOneKeepsAll` | collections/nemo_nlp/nemo_nlp/data/datasets/joint_intent_slot.py:110 | for L == 1 the "cut" keeps the whole list behind the new head |
| `Features.RecordShape` | collections/nemo_nlp/nemo_nlp/data/datasets/joint_intent_slot.py:108-132 | for L >= 2, ids, attention mask and segment ids have length L, and the mask and slots do too when aligned with the subtokens |
| `Features.RecordTruncation` | collections/nemo_nlp/nemo_nlp/data/datasets/joint_intent_slot.py:109-121 | an example longer than L >= 2 keeps [CLS] plus its last L - 1 subtokens; attention and unpadded masks are L ones; mask and slots are cut the same way behind True and the pad label |
| `Features.RecordPadding` | collections/nemo_nlp/nemo_nlp/data/datasets/joint_intent_slot.py:119-130 | an example no longer than L keeps every position and is padded with L - n zeros, zero attention, False flags and pad labels |
| `Features.RecordAttention` | collections/nemo_nlp/nemo_nlp/data/datasets/joint_intent_slot.py:98-127 | for L >= 2 the attention mask is min(n, L) ones then zeros, sums to min(n, L), and the unpadded mask is min(n, L) ones |
| `Features.RecordLengthOne` | collections/nemo_nlp/nemo_nlp/data/datasets/joint_intent_slot.py:109-120 | with L == 1 nothing is cut or padded: the ids are those of [CLS] plus every raw subtoken, the attention and unpadded masks are n + 1 ones, the mask is True then the raw mask, the slots are the pad label then the raw slots, and the segment ids are the single 0 |
| `Features.GetFeatures` | collections/nemo_nlp/nemo_nlp/data/datasets/joint_intent_slot.py:62-140 | fails iff the batch is empty (ValueError) or some labelled query lacks labels (IndexError); otherwise N id rows, N segment rows, 2N attention rows, N mask rows, and N slot rows when labelled or none when not |
| `Features.CollectEntry` | collections/nemo_nlp/nemo_nlp/data/datasets/joint_intent_slot.py:119-140 | row i of each returned list is example i's row, and attention row N + i is its unpadded mask |
| `Features.GetFeaturesEntry` | collections/nemo_nlp/nemo_nlp/data/datasets/joint_intent_slot.py:103-140 | row i of each returned list is built from raw example i at the batch's effective length |
| `Features.RawOfExpansion` | collections/nemo_nlp/nemo_nlp/data/datasets/joint_intent_slot.py:78-101 | raw example i of an accepted batch is the first pass on query i's words with query i's labels |
| `Features.RawOfShape` | collections/nemo_nlp/nemo_nlp/data/datasets/joint_intent_slot.py:80-101 | every raw example has at least the two markers, labelled slots match its subtokens, and so does the mask when no word is lost |
| `Features.BatchLengthBounds` | collections/nemo_nlp/nemo_nlp/data/datasets/joint_intent_slot.py:103 | L is at most the maximum, at least 2 when the maximum is, at most some raw example's length, either the maximum or at least every raw length, and, when all fit, at least every raw length and equal to one of them (so the longest) |
| `Features.GetFeaturesShape` | collections/nemo_nlp/nemo_nlp/data/datasets/joint_intent_slot.py:119-132 | with a maximum >= 2, every row of ids, attention, segments and labelled slots has length L, and so does the mask row when every word yields a subtoken |
| `Features.GetFeaturesPadding` | collections/nemo_nlp/nemo_nlp/data/datasets/joint_intent_slot.py:123-130 | a query whose raw example fits is returned unchanged followed by L - n padding entries in every row |
| `Features.GetFeaturesAttention` | collections/nemo_nlp/nemo_nlp/data/datasets/joint_intent_slot.py:98-127 | with a maximum >= 2, attention row i is min(n_i, L) ones then zeros, and row N + i is min(n_i, L) ones |
| `Datasets.Zip` | collections/nemo_nlp/nemo_nlp/data/datasets/joint_intent_slot.py:184 | `zip` pairs slot line i with input line i, up to the shorter list |
| `Datasets.Swap` | collections/nemo_nlp/nemo_nlp/data/datasets/joint_intent_slot.py:187 | one Fisher-Yates exchange: positions i and j swap their entries, every other position is unchanged, and so the contents are kept |
| `Datasets.ShuffleSteps` | collections/nemo_nlp/nemo_nlp/data/datasets/joint_intent_slot.py:187 | every prefix of the Fisher-Yates loop keeps the length and only reorders: the multiset of entries is unchanged |
| `Datasets.Shuffle` | collections/nemo_nlp/nemo_nlp/data/datasets/joint_intent_slot.py:186-187 | `random.shuffle` keeps every pair exactly as often as before, for any valid draws |
| `Datasets.Select` | collections/nemo_nlp/nemo_nlp/data/datasets/joint_intent_slot.py:186-189 | keeps min(num_samples, n) pairs when num_samples is positive and all n otherwise, and keeps the file order when neither shuffling nor sampling |
| `Datasets.SelectDrawsFromInput` | collections/nemo_nlp/nemo_nlp/data/datasets/joint_intent_slot.py:184-189 | the kept pairs are a sub-multiset of the file pairs, and all of them when num_samples is non-positive or at least n |
| `Datasets.ParseInts` | collections/nemo_nlp/nemo_nlp/data/datasets/joint_intent_slot.py:193 | a slot line parses iff every token is an integer, into one integer per token in order; else ValueError |
| `Datasets.ParseInputLine` | collections/nemo_nlp/nemo_nlp/data/datasets/joint_intent_slot.py:194-196 | a line with no token raises IndexError, a non-integer last token raises ValueError, otherwise the intent is the last token's value |
| `Datasets.ParseInputLineQueryWords` | collections/nemo_nlp/nemo_nlp/data/datasets/joint_intent_slot.py:194-196 | the rebuilt query splits, as in `get_features`, into exactly the line's tokens minus the intent |
| `Datasets.ParseExample` | collections/nemo_nlp/nemo_nlp/data/datasets/joint_intent_slot.py:191-196 | a pair parses iff both lines do; a bad slot line is reported before a bad input line |
| `Datasets.ParseAll` | collections/nemo_nlp/nemo_nlp/data/datasets/joint_intent_slot.py:191-196 | the batch parses iff every pair does, example i is pair i's parse, and otherwise the first failing pair's error is raised |
| `Datasets.SelectedExamples` | collections/nemo_nlp/nemo_nlp/data/datasets/joint_intent_slot.py:173-196 | num_samples == 0 raises ValueError first, a line-count mismatch after the header is dropped raises AssertionError, and otherwise the selected pairs are parsed in order: the run succeeds iff every selected pair parses, example j is the parse of selected pair j, and a failure raises the error of the first selected pair that does not parse; an accepted run yields as many examples as selected |
| `Datasets.SelectedInFileOrder` | collections/nemo_nlp/nemo_nlp/data/datasets/joint_intent_slot.py:180-196 | for well-formed files, without shuffle or sampling, the files are accepted and example i comes from slot line i and input line i + 1: its labels, intent and query words are read from them |
| `Datasets.SelectedFromSomeLine` | collections/nemo_nlp/nemo_nlp/data/datasets/joint_intent_slot.py:184-196 | well-formed files are accepted for any draws and any non-zero sample count, and every selected example is the parse of some line pair of the files |
| `Datasets.BuildDataset` | collections/nemo_nlp/nemo_nlp/data/datasets/joint_intent_slot.py:165-218 | zero samples raise ValueError, then a line-count mismatch raises AssertionError, then a parse failure raises the error of the first selected pair that does not parse (as `SelectedExamples` states); otherwise the dataset is built iff the selected examples are a non-empty batch whose queries are covered by their labels, and fails with ValueError (empty) or IndexError (uncovered) when not; an accepted dataset has `len` equal to the number of selected examples and of intents, 2·len attention rows and len slot rows, and is `get_features` of the selected queries and slot rows |
| `Datasets.FileOrderExamples` | collections/nemo_nlp/nemo_nlp/data/datasets/joint_intent_slot.py:180-196 | for well-formed files whose slot lines cover their queries, read without shuffle or sampling: one example per slot line, the batch is accepted iff there is one, and intent k is the last token of input line k + 1 |
| `Datasets.BuildDatasetInFileOrder` | collections/nemo_nlp/nemo_nlp/data/datasets/joint_intent_slot.py:173-218 | the same files give a dataset iff they hold an example (ValueError from `max()` otherwise), with `len` equal to the number of slot lines and intent k read from input line k + 1 |
| `Datasets.Len` | collections/nemo_nlp/nemo_nlp/data/datasets/joint_intent_slot.py:217-218 | `__len__` is the number of id rows; it has no contract of its own, and `BuildDataset` and `BuildDatasetInFileOrder` state its value |
| `Datasets.BuildInferDataset` | collections/nemo_nlp/nemo_nlp/data/datasets/joint_intent_slot.py:244-259 | the unlabelled dataset fails only on an empty query list (ValueError); otherwise it has one id, segment and mask row per query, 2N attention rows and no slots |
| `Datasets.BuildInferDatasetEntry` | collections/nemo_nlp/nemo_nlp/data/datasets/joint_intent_slot.py:244-259 | queries keep their input order: row i (and attention row N + i) is built from query i's unlabelled first pass at the batch's effective length, with the default pad label |

## Left out

- `get_stats`, `get_label_stats` and `list2str`: they only log or write statistics files. No output of the model depends on them.
- The logger calls and `too_long_count`: they are only used for logging.
- File reading (`open`, `readlines`) and the `intent_stats.tsv`/`slot_stats.tsv` paths. Both files' lines are parameters. The trailing newline `readlines` keeps is whitespace, so `strip()`/`split()` drop it as in Python.
- `__getitem__` of both datasets: it only converts rows to numpy arrays.
- The tokenizer's internals: `tokenize` and `_convert_token_to_id` are parameters.
- The internals of Python's `int()`: it is the parameter `parseInt`, which returns None where `int()` raises ValueError.
- Assertions disabled: line 182 is a bare `assert`, so under `python -O` a line-count mismatch is not raised and `zip` silently pairs up to the shorter file. The model assumes assertions are enabled and always raises `LineCountMismatch`.
- The random number generator: `random.shuffle` is modelled as its Fisher-Yates loop over caller-supplied draws, one index in [0, i] for each position i.
- Features.GetFeatures: its own contract gives only the error cases and the number of rows. The content of each row is stated by the lemmas about it (`GetFeaturesEntry`, `RecordTruncation`, `RecordPadding`, `RecordAttention`, `GetFeaturesShape`).
- Features.GetFeaturesShape, Features.GetFeaturesAttention, Features.RecordShape, Features.RecordAttention and Features.BatchLengthBounds: these lemmas state row lengths and attention only for a maximum (or L) of at least 2. At L == 1 every list of one example is described by `Features.RecordLengthOne`, and at batch level through `Features.GetFeaturesEntry`. L <= 0 is not described beyond the model itself.
- Datasets.BuildDataset: it does not say which examples a shuffled or sampled dataset holds. `SelectedFromSomeLine` and `SelectDrawsFromInput` state that they come from the files without repetition.
- Datasets.SelectedFromSomeLine, Datasets.SelectedInFileOrder, Datasets.FileOrderExamples and Datasets.BuildDatasetInFileOrder assume files in which every line pair parses (the last two also assume every query is covered by its slot line). For all other files, `Datasets.BuildDataset` and `Datasets.SelectedExamples` state the outcome: success iff every selected pair parses and the batch is accepted, and otherwise the first error in the source's order. With sampling, the code only parses the selected pairs, so it also accepts some files these lemmas do not cover.
