# nplm scoring engine — a Dafny model

This project models the part of the nplm neural n-gram language model that loads a
trained model and scores n-grams with it:

- **the model file** (`src/model.cpp`). It covers:
  - `model::read`, the line-oriented state machine over `\config`, word-list and parameter sections;
  - `model::readConfig`, the `key value` lines of the `\config` section;
  - `model::write`, which emits the sections in a fixed order;
  - `model::resize`, which derives every layer's dimensions from the six topology integers;
  - `model::premultiply`, which fuses the embedding lookup into the first linear stage;
  - the `findLast` / `NotSpace` / `rightTrim` helpers.
- **the scoring front end** (`src/neuralNetwork.h`). It covers:
  - the direct-mapped cache of n-gram scores (`set_cache`, `resize`, the single-column
    `lookup_ngram`, `cache_hit_rate`);
  - the adapter `lookup_ngram_start_null`, which pads or truncates a token array to the
    model's width;
  - the batch `lookup_ngram`, which bypasses the cache;
  - the `premultiply` guard.
- **the test driver's arithmetic** (`src/testNeuralNetwork.cpp`). This covers:
  - the flat token array viewed as an `ngram_size x test_data_size` column-major matrix;
  - the number of minibatches;
  - the start and size of every minibatch.

Everything is modelled as pure functions over immutable values:

- A file is its sequence of lines.
- A matrix is a `seq<seq<real>>`.
- A fatal error (`exit(1)`, a failed `lexical_cast`, a failed assertion) is the `Err` arm of
  a `Result`.

Three collaborators are passed in as functions, because their code is not part of this model:

- the forward pass that scores an n-gram (`score`);
- `Eigen::hash_value` (`hash`);
- the layers' numeric text layout (`Codec`).

Modules:

| module | file | contents |
|---|---|---|
| `Results` | results.dfy | `Option`, `Result` |
| `Text` | text.dfy | whitespace, `findLast`, right trim, field splitting, decimal `int` printing and `lexical_cast<int>` |
| `Matrices` | matrices.dfy | vectors, matrices, dot products, column blocks, `seg * W^T` |
| `Model` | model.dfy | topology, shape invariant, `resize`, `premultiply` and its correctness |
| `Config` | config.dfy | `readConfig` and a reference "last value wins" reading of a config block |
| `ModelFile` | modelfile.dfy | `read`, `write` and their round trip |
| `Network` | network.dfy | the score cache, the padding adapter, batch lookup, the premultiply guard |
| `Minibatch` | minibatch.dfy | the test driver's reshaping and minibatch partition |

Where the code and the documented behaviour differ, the model follows the code. Three such places:

- A line starting with `\` that names no known section is consumed silently by `read`.
  - It draws no warning and skips nothing.
  - The next line, if it is not a marker, is then treated as stray text: it draws the warning, and the lines through the next blank line are skipped.
  - `ModelFile.ReadDiscardsUnknownSection` states the combined effect.
- `model::premultiply` itself is not guarded. Only `neuralNetwork::premultiply` checks the `premultiplied` flag.
  - `Model.Premultiply` therefore requires the unfused shapes.
  - `Network.PremultiplyOnce` is the idempotent guard.
- `num_batches` is computed with C++ truncating division.
  - An empty test file with a minibatch size of 1 gives 0 batches.
  - With any larger minibatch size, it gives one batch of 0 columns.

`write` does not record the `premultiplied` flag, and `resize` during `\config` clears it. A model read back is therefore always marked unfused (`ModelFile.WriteReadRoundTrip`). For a premultiplied model, clearing the flag without restoring the unfused shapes breaks the shape invariant, unless the unfused embedding table is itself 1x1 (`ModelFile.PremultipliedModelReadsBackMisshaped`); the fused model's file is therefore not a faithful record of it.

## Model

| member | source | states |
|---|---|---|
| Text.FindLast | src/model.cpp:20-28 | returns the greatest index in [begin, end) whose element satisfies the predicate, with no satisfying element after it; returns `end` exactly when no element in the range satisfies it |
| Text.RightTrim | src/model.cpp:41-49 | the result is a prefix of the line; it is empty or ends in a non-space; everything cut off is whitespace; it is empty exactly when the line is all whitespace |
| Text.RightTrimUnique | src/model.cpp:41-49 | any prefix with that shape (empty or ending in a non-space, followed only by whitespace) is the right trim, so the trim is uniquely determined |
| Text.RightTrimIdempotent | src/model.cpp:41-49 | trimming a trimmed line changes nothing |
| Text.RightTrimLine | src/model.cpp:41-49 | the `findLast`-then-clear-or-erase algorithm computes exactly the characterised right trim |
| Text.FieldsOfPair | src/model.cpp:141-143 | a line made of a key field, one space and a value field splits back into exactly those two fields |
| Text.ParseInt | src/model.cpp:143 | `lexical_cast<int>` accepts only text starting with a digit or a sign, and only values inside the 32-bit `int` range |
| Text.ParseIntRejectsTrailing | src/model.cpp:143 | `lexical_cast<int>` reads the whole field: text ending in a character that is not a digit is rejected |
| Text.ParseIntRoundTrip | src/model.cpp:314-319 | every 32-bit `int` printed in decimal parses back to itself |
| Text.DecimalRoundTrip | src/model.cpp:314 | the decimal digits of a natural number denote that number |
| Model.Resize | src/model.cpp:51-81 | stores the topology, keeps the activation, clears `premultiplied`, and leaves every layer with the shape the topology dictates |
| Model.ResizeStageShapes | src/model.cpp:58-73 | the first and second linear stages get the dimensions of the `num_hidden == 0` branch or of the other branch, and the embedding and output tables get theirs |
| Model.Premultiply | src/model.cpp:113-131 | sets `premultiplied`, shrinks the embedding table to 1x1, gives the first stage one column per (context position, input word), changes nothing else, and keeps a well-shaped model well-shaped |
| Model.PremultiplyBlocks | src/model.cpp:127-128 | column block `i` of each fused row is block `i` of the original row times the transposed embedding table |
| Model.FuseRowChunk | src/model.cpp:127-128 | the same block property for a single row, at every context position |
| Model.FuseRowAgrees | src/model.cpp:115-116 | for one row and any in-vocabulary context, the dot product with the concatenated embeddings equals the sum of the fused entries the tokens select |
| Model.PremultiplyPreservesFirstStage | src/model.cpp:115-128 | premultiplication preserves the first stage: for every context of in-vocabulary tokens, the fused lookup gives the same pre-activation as embedding followed by the linear stage |
| Config.ApplyLine | src/model.cpp:141-168 | a line with an unknown key is always accepted and only adds that key as a warning; an accepted line never drops a warning or unsets `ngram_size`; a `version` line is accepted exactly when its value parses as 1; a known key without a value field is `MalformedLine`, and an integer key whose value `lexical_cast<int>` rejects is `BadNumber` with that text |
| Config.Assign | src/model.cpp:142-166 | storing a cast integer setting fails exactly for a `version` other than 1, with that version in the error, and changes neither the warnings nor the activation |
| Config.Collect | src/model.cpp:139-169 | an accepted block keeps every earlier warning and leaves no more lines unread than it was given |
| Config.ReadConfig | src/model.cpp:133-177 | a config block that is read successfully leaves a well-shaped, unfused model |
| Config.BlockLength | src/model.cpp:139 | the block is the longest run of lines before the first empty line |
| Config.ApplyLineFollows | src/model.cpp:142-157 | an accepted line sets every setting it names to its value field and leaves every other setting alone; `vocab_size` sets both vocabulary sizes |
| Config.ApplyLineDimensions | src/model.cpp:142-155 | the same for `ngram_size` and the three layer dimensions |
| Config.ApplyLineVocabulary | src/model.cpp:144-157 | the same for the two vocabulary sizes and the activation function |
| Config.CollectFollowsLastSettings | src/model.cpp:139-169 | after an accepted block, each setting is the block's last value for its key (or the prior setting when no line names it), and reading resumes right after the first empty line |
| Config.ReadConfigSettings | src/model.cpp:139-176 | `readConfig` resizes to the block's last values, keeps the model's vocabulary sizes when the block omits them, and sets the last activation function |
| Config.VersionLineFails | src/model.cpp:158-166 | a `version` line with any value but 1 is the version-mismatch error for that value |
| Config.VersionMismatchIsFatal | src/model.cpp:158-166 | such a line is fatal wherever it occurs after lines the reader accepts, whatever follows it |
| Config.ReadConfigNeedsNgramSize | src/model.cpp:137-175 | a block that never sets `ngram_size` is rejected for that missing key |
| ModelFile.SetParameter | src/model.cpp:264-277 | reading a parameter section replaces exactly that section's matrix; the other six, the topology, the activation and the flag are unchanged |
| ModelFile.ReadStep | src/model.cpp:236-287 | one pass of the loop: unless it is fatal, it consumes at least the line, only ever appends warnings, and neither creates nor drops the caller's output list |
| ModelFile.ReadStepOutcomes | src/model.cpp:241-246 | the loop breaks exactly at `\end`, with the state unchanged and the following lines unread; only a `\config` section can end the program |
| ModelFile.Read | src/model.cpp:230-289 | a successful read leaves no more lines unread than it was given, keeps every earlier warning, and ends with an output list exactly when the caller passed one |
| ModelFile.ReadSkipsBlankLine | src/model.cpp:237-239 | a line that is blank once trimmed changes nothing |
| ModelFile.ReadStopsAtEnd | src/model.cpp:242-243 | `\end` stops the reader with the state unchanged and every later line unread |
| ModelFile.ReadIgnoresUnknownMarker | src/model.cpp:240-277 | a marker naming no known section is consumed and changes nothing |
| ModelFile.SkipSectionThroughBlank | src/model.cpp:282-286 | the skip loop discards lines up to and including the first line that is blank once trimmed |
| ModelFile.ReadSkipsStrayText | src/model.cpp:278-287 | a non-marker line draws one warning, and it and every line through the next blank line are skipped |
| ModelFile.ReadSkipsUnrequestedOutputVocab | src/model.cpp:255-263 | without an output list, an `\output_vocab` section is skipped through its blank line with no warning |
| ModelFile.ReadDiscardsUnknownSection | src/model.cpp:240-287 | an unknown section is discarded, with its first body line as the only warning |
| ModelFile.Write | src/model.cpp:307-366 | the file starts with `\config` and ends with `\end` |
| ModelFile.VersionFirst | src/model.cpp:312-321 | the config section has eight lines, and its first is `version 1` |
| ModelFile.WriteStartsWithVersion | src/model.cpp:312-313 | the line after `\config` is `version 1` |
| ModelFile.CollectSettingLines | src/model.cpp:313-319 | reading back the written `key value` lines assigns each written value to its key, in order |
| ModelFile.CollectConfigBody | src/model.cpp:312-321 | the config reader collects from the written config body exactly the written topology and activation |
| ModelFile.ReadConfigWritten | src/model.cpp:312-321 | `readConfig` of a written config body resizes to the written topology with the written activation, with no warnings |
| ModelFile.ReadConfigSection | src/model.cpp:244-245 | reading a written `\config` section replaces the model by the resized one |
| ModelFile.ReadSharedVocabSection | src/model.cpp:246-250 | a `\vocab` section sets the input word list and, when the caller passed an output list, the output list to the same words |
| ModelFile.ReadInputVocabSection | src/model.cpp:251-254 | reading a written `\input_vocab` section sets the input word list to the written words |
| ModelFile.ReadOutputVocabSection | src/model.cpp:255-259 | reading a written `\output_vocab` section sets the output list, when the caller asked for one |
| ModelFile.ReadParameterSection | src/model.cpp:264-277 | reading a written parameter section stores the decoded body in that parameter |
| ModelFile.ReadParameterLines | src/model.cpp:337-365 | reading the written parameter sections copies each of them into the model, and the read stops at `\end` |
| ModelFile.ReadVocabSections | src/model.cpp:323-335 | reading back the optional word-list sections sets the input list to the written one, sets the output list to the written one only when the reader holds an output list, and changes nothing else |
| ModelFile.CopyIntoResized | src/model.cpp:337-363 | copying all seven written parameters into the model resized to the written topology rebuilds the written model, unfused |
| ModelFile.WriteReadRoundTrip | src/model.cpp:307-366 | reading what `write` emits yields the written model (with the flag cleared) and the written word lists, adds no warning and consumes the whole file |
| ModelFile.PremultipliedModelReadsBackMisshaped | src/model.cpp:312-321 | the flag is not written: a premultiplied model with its flag cleared but its fused layers kept is not well-shaped, unless the unfused embedding table is itself 1x1 |
| Network.ResizeValues | src/neuralNetwork.h:227 | `vector::resize` keeps the first `n` values and pads with zeros |
| Network.SetCache | src/neuralNetwork.h:221-229 | `n` slots, each holding the empty-slot key, with both counters zero; the model and width are unchanged |
| Network.Resize | src/neuralNetwork.h:51-59 | takes the width from the model; with caching on, every slot holds the empty key of the new width; values and counters are kept |
| Network.Lookup | src/neuralNetwork.h:67-136 | caching off: the score, with nothing changed. Caching on: one more lookup; a key equal to the probe is a hit returning the stored value; a miss returns the score and overwrites only the probe's slot |
| Network.SetCacheCoherent | src/neuralNetwork.h:221-229 | a freshly sized cache holds no stale answer |
| Network.ResizeCoherent | src/neuralNetwork.h:51-59 | a resize leaves no stale answer |
| Network.TokensAreNotSentinel | src/neuralNetwork.h:56 | a probe of non-negative token ids never equals the all `-1` empty key |
| Network.LookupIsTransparent | src/neuralNetwork.h:73-127 | with real tokens and a fixed scorer, a lookup through a coherent cache returns exactly the uncached score and keeps the cache coherent |
| Network.SentinelProbeFalselyHits | src/neuralNetwork.h:74-83 | a probe of all `-1` into a freshly sized cache is counted as a hit and returns the leftover value instead of the score |
| Network.RepeatedLookupHits | src/neuralNetwork.h:76-83 | looking the same n-gram up again straight away is a hit with the same answer and leaves the cache as it was |
| Network.LookupCounted | src/neuralNetwork.h:78-81 | hits never outnumber lookups |
| Network.CacheHitRate | src/neuralNetwork.h:231-234 | the rate is defined exactly when there was a lookup, lies in [0, 1], and times the lookups gives the hits |
| Network.PaddedNgram | src/neuralNetwork.h:138-155 | the n-gram has the network's width; its last `min(width, n)` entries are the last tokens of the array, in order; any positions before them hold the start token (when the array begins with it) or the null token; the last token is always kept |
| Network.AssembleNgram | src/neuralNetwork.h:142-152 | the two fill loops build exactly the padded n-gram |
| Network.LookupStartNull | src/neuralNetwork.h:138-155 | padding and then looking up is a single lookup of the padded n-gram |
| Network.PaddedLookupScores | src/neuralNetwork.h:138-155 | with real tokens and a coherent cache, the padded lookup returns the score of the padded n-gram |
| Network.PaddedExampleShort | src/neuralNetwork.h:145-148 | `[5]` pads to `[0, 0, 0, 5]`, while `[1, 5]` with start token 1 pads to `[1, 1, 1, 5]` |
| Network.PaddedExampleLong | src/neuralNetwork.h:149-152 | a long array keeps only its last `width` tokens |
| Network.BatchAgreesWithCachedLookups | src/neuralNetwork.h:158-197 | the batch lookup, which never touches the cache, gives column for column the answers of cached single lookups |
| Network.PremultiplyOnce | src/neuralNetwork.h:236-242 | an unfused model is replaced by `Model.Premultiply` of it; an already premultiplied network is unchanged; the result is premultiplied and well-shaped, and only the model changes |
| Network.PremultiplyOnceIdempotent | src/neuralNetwork.h:236-242 | guarding twice is guarding once |
| Minibatch.CDiv | src/testNeuralNetwork.cpp:98 | C++ integer division by any non-zero divisor: the quotient is truncated toward zero, so the remainder has the sign of the dividend and is smaller than the divisor in magnitude |
| Minibatch.TestDataSize | src/testNeuralNetwork.cpp:91 | the number of whole n-grams in the flat array; a trailing partial n-gram is dropped |
| Minibatch.ColumnIsSlice | src/testNeuralNetwork.cpp:94 | column `j` of the column-major view is the `j`-th run of `ngram_size` tokens |
| Minibatch.ColumnContextAndTarget | src/testNeuralNetwork.cpp:111-136 | the context rows fed to the forward pass for column `j` are the first `ngram_size - 1` tokens of the `j`-th run of `ngram_size` in the flat array, and the predicted word is its last token |
| Minibatch.NumBatches | src/testNeuralNetwork.cpp:98 | `num_batches` is an error exactly when the minibatch size is zero (division by zero) |
| Minibatch.NumBatchesIsCeiling | src/testNeuralNetwork.cpp:98 | for at least one instance: a zero minibatch size is a division by zero; a positive one gives at least one batch, and `num_batches` is the ceiling of the size over the minibatch size |
| Minibatch.EmptyTestData | src/testNeuralNetwork.cpp:98 | for an empty file, by minibatch size: 0 is a division by zero; at least 2 gives one batch of 0 columns; 1 gives no batch; -1 gives two; below -1 gives one |
| Minibatch.BatchStartIsProduct | src/testNeuralNetwork.cpp:108 | batch `b` starts at `minibatch_size * b` |
| Minibatch.LastBatchEnds | src/testNeuralNetwork.cpp:98-108 | the last batch starts inside the test data and the next one would not |
| Minibatch.BatchSizeBounds | src/testNeuralNetwork.cpp:106-111 | every batch the loop visits holds between 1 and `minibatch_size` columns and ends inside the test data |
| Minibatch.Partition | src/testNeuralNetwork.cpp:98-111 | a zero minibatch size fails at the division and a negative one at the allocation of the score matrices; a positive one gives the batches of the loop, which cover the columns `0 .. test_data_size - 1` in order, without gap or overlap |
| Minibatch.PartitionExamples | src/testNeuralNetwork.cpp:106-111 | 130 instances in minibatches of 64 give batches of 64, 64 and 2 |

## Left out

- Floating point:
  - scores are mathematical reals;
  - `double` rounding is not modelled;
  - neither are `logsum`, the softmax, `set_log_base` and `set_normalization`.
  - Transparency of the cache holds for a fixed `score`. Those two setters change the score without clearing the cache, so stale entries would survive them.
- Config.ApplyLine: a line with no field, or a known key without its value field, is the `MalformedLine` error. The source indexes `fields[0]` and `fields[1]` unchecked (src/model.cpp:142-160), which is undefined behaviour rather than an exception; the model does not describe what it would do.
- The forward pass (`propagator`, `fProp`), the layers' own `read`/`write` text layout, `readWordsFile`, `writeWordsFile` and `splitBySpace`: not part of this model.
  - The forward pass and the text layout are the `score` and `Codec` parameters.
  - Word lists and section bodies are read up to and including the first empty line.
  - Fields are maximal runs of non-space characters.
- `Eigen::hash_value`: the `hash` parameter.
- `model::initialize` (random initialisation): not modelled.
- ModelFile.Read: a fatal error is an `Err` that carries only the error. In the source, a `lexical_cast` exception or `exit(1)` leaves behind what was already done: the vocabulary sizes `readConfig` had assigned (src/model.cpp:145-149), the word lists already filled through the caller's references (src/model.cpp:247-258), and the warnings already printed to `cerr`. A caller that catches the exception sees that partial state; the model does not describe it.
- Threads, timers, logging to `log`, `cerr` output and file opening:
  - warnings are recorded as a list of strings;
  - `exit(1)` and exceptions are `Err` values.
- The `_WIN32` branch of `NotSpace`: only the non-Windows `isspace` test is modelled.
- Model.Resize: the new matrices are modelled as zero matrices, but Eigen leaves resized contents unspecified; no property depends on the contents.
- Network.Lookup: `cache_lookups` and `cache_hits` are plain `int`s whose overflow is not modelled. They are also uninitialised until `set_cache` is first called; the model starts them from whatever the `Net` value holds.
- Config.ReadConfig: the topology locals `ngram_size`, `input_embedding_dimension`, `num_hidden` and `output_embedding_dimension` are uninitialised in the source when the block omits them. The model reports a missing-key error instead of resizing with indeterminate values.
- Config.ReadConfig: a negative dimension is an error, as Eigen's resize would assert on it. An `ngram_size` below 1 is also rejected by the model, although the source does not check it: with `ngram_size` 0 it would resize `input_layer` with `ngram_size - 1 = -1` as its context count, and the shape invariant of the model has no meaning for that. Products of dimensions are not checked against `int` overflow.
- Config.ApplyLine: the value of `activation_function` is kept as text. `string_to_activation_function` (src/model.cpp:157) and `activation_function_to_string` (src/model.cpp:320) are not modelled, so neither what an unknown name maps to nor the normalisation of the name by a write-read round trip is covered.
- ModelFile.Write: writes the stored activation text unchanged, for the reason given for `Config.ApplyLine`.
- Text.IsSpace: works on Dafny characters, not on the bytes of a `std::string`; the locale of `isspace` is taken to be the "C" locale.
- ModelFile.WriteReadRoundTrip: for a premultiplied model, the layers read back are whatever the `Codec` parameter decodes, and that codec ignores shapes. In the source the `\config` section first resizes every layer to the unfused shape (src/model.cpp:170-175) and the layer readers then fill the resized matrices (src/model.cpp:264-277). What a fused model reads back as is therefore decided by the codec, not by the source, and is not claimed.
- Network.LookupStartNull: requires `1 <= n <= |a|`. The source asserts `n != 0` and trusts the caller for the array's length.
- Network.CacheHitRate: the source divides in `double`, so with no lookups the rate is NaN. The model returns `None` in that case.
- Minibatch.Partition: `test_data_size` and the minibatch size are unbounded integers. The `int` products of the source are not checked for overflow.
- Minibatch.Partition: a negative minibatch size stops the model with `NegativeMinibatchSize` where `scores` and `output_probs` are allocated with it as their column count (src/testNeuralNetwork.cpp:103-104). Eigen asserts there in a debug build; a build without assertions has undefined behaviour, which is not modelled. The `propagator` constructed with the same size at line 71 is not part of this model.
- Minibatch.NumBatches: the value of `num_batches` is modelled for every non-zero minibatch size, negative ones included (`Minibatch.EmptyTestData`). The ceiling property is stated only for positive sizes, the only ones for which the loop runs in the model.
- Minibatch.LastBatchEnds, Minibatch.BatchSizeBounds, Minibatch.BatchStartIsProduct: they describe the batch loop and require a positive minibatch size. The source does not check the size; the other sizes are the error results of `Minibatch.Partition`.
- `lookup_ngram_start_null` with a padded token array of negative ids: the cache transparency lemmas require non-negative token ids. `Network.SentinelProbeFalselyHits` shows what fails without that.
